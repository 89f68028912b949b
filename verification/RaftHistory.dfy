/** What holds between any two moments of one log, whatever entries it holds. */
module RaftHistory {
  import opened Prelude
  import opened LogIds
  import opened ConsensusTypes
  import opened ClusterControl
  import opened BatchLedger
  import opened DecisionMachine
  import opened RaftMachine

  /** A log that a new machine can apply from its first entry to its last. */
  ghost predicate Applies(s: Machine, log: seq<Entry>) {
    s.lastApplied.None? && DecisionsInv(s.decisions, 0) && Replay(s, log).Some?
  }

  /** Every log that a new machine replays. */
  lemma NewMachineApplies(maxEntries: nat, maxBytes: nat, log: seq<Entry>)
    requires Replay(Start(maxEntries, maxBytes), log).Some?
    ensures Applies(Start(maxEntries, maxBytes), log)
  {
    EmptyLedgerInv(maxEntries, maxBytes);
    EmptyClusterInv();
  }

  lemma {:induction false} PrefixApplies(s: Machine, log: seq<Entry>, i: nat)
    requires Applies(s, log) && i <= |log|
    ensures Applies(s, log[..i])
  {
    if i == |log| {
      assert log[..i] == log;
    } else {
      var rest := log[..|log| - 1];
      PrefixApplies(s, rest, i);
      assert rest[..i] == log[..i];
    }
  }

  ghost function At(s: Machine, log: seq<Entry>, i: nat): Machine
    requires Applies(s, log) && i <= |log|
  {
    PrefixApplies(s, log, i);
    Replay(s, log[..i]).value
  }

  ghost function LedgerAt(s: Machine, log: seq<Entry>, i: nat): Ledger
    requires Applies(s, log) && i <= |log|
  {
    At(s, log, i).decisions.ledger
  }

  ghost function ClusterAt(s: Machine, log: seq<Entry>, i: nat): Cluster
    requires Applies(s, log) && i <= |log|
  {
    At(s, log, i).decisions.cluster
  }

  lemma StepAt(s: Machine, log: seq<Entry>, i: nat)
    requires Applies(s, log) && i < |log|
    ensures ApplyEntry(At(s, log, i), log[i]).Some?
    ensures At(s, log, i + 1) == ApplyEntry(At(s, log, i), log[i]).value.0
  {
    PrefixApplies(s, log, i);
    PrefixApplies(s, log, i + 1);
    assert log[..i + 1][..i] == log[..i];
  }

  /** Every state on the way keeps the decision invariant, and an entry sits at its own index. */
  lemma {:induction false} StateAt(s: Machine, log: seq<Entry>, i: nat)
    requires Applies(s, log) && i <= |log|
    ensures Next(At(s, log, i).lastApplied) == i && DecisionsInv(At(s, log, i).decisions, i)
  {
    if i == 0 {
      assert log[..0] == [];
    } else {
      StateAt(s, log, i - 1);
      StepAt(s, log, i - 1);
      EntryKeepsDecisions(At(s, log, i - 1), log[i - 1]);
    }
  }

  lemma EntryKeepsDecisions(m: Machine, e: Entry)
    requires DecisionsInv(m.decisions, Next(m.lastApplied)) && ApplyEntry(m, e).Some?
    ensures e.at.index == Next(m.lastApplied) && Next(ApplyEntry(m, e).value.0.lastApplied) == e.at.index + 1
    ensures DecisionsInv(ApplyEntry(m, e).value.0.decisions, e.at.index + 1)
  {
    InvLater(m.decisions, e.at.index);
    if e.payload.Normal? {
      ApplyKeepsInv(m.decisions, e.at, e.payload.command);
    }
  }

  // ---- One step of the ledger

  /** A begin that passes its checks at this time forgets a finalized entry. */
  predicate Forgets(l: Ledger, k: nat, payload: Payload) {
    && payload.Normal? && payload.command.Begin? && BeginRefusal(l, payload.command.batch).None?
    && Expired(l, k, payload.command.batch.proposedAt)
  }

  predicate LedgerMoves(l: Ledger, l': Ledger, payload: Payload) {
    && (l.executor.Some? ==> l'.executor.Some? && l.executor.value.index <= l'.executor.value.index)
    && (l.lastCommit.Some? ==> l'.lastCommit.Some? && l.lastCommit.value <= l'.lastCommit.value)
    && (forall k :: k in l.committed ==> Forgets(l, k, payload) || (k in l'.committed && l'.committed[k] == l.committed[k]))
  }

  lemma BeginMoves(l: Ledger, n: nat, payload: Payload)
    requires payload.Normal? && payload.command.Begin?
    ensures LedgerMoves(l, BeginStep(l, payload.command.batch, n).0, payload)
  {
  }

  lemma CommitMoves(l: Ledger, n: nat, payload: Payload)
    requires EntriesOk(l) && CursorsOk(l, n) && payload.Normal? && payload.command.Commit?
    ensures LedgerMoves(l, CommitStep(l, payload.command.prepared, n).0, payload)
  {
    assert n !in l.committed by {
      assert n in l.committed ==> EntryOk(l, n, l.committed[n]);
    }
  }

  lemma DecisionMoves(d: Decisions, at: LogId, payload: Payload)
    requires DecisionsInv(d, at.index) && payload.Normal?
    ensures LedgerMoves(d.ledger, Apply(d, at, payload.command).0.ledger, payload)
  {
    if IsClusterCommand(payload.command) {
      UnchangedMoves(d.ledger, payload);
    } else {
      OtherMoves(d, at, payload);
    }
  }

  lemma UnchangedMoves(l: Ledger, payload: Payload)
    ensures LedgerMoves(l, l, payload)
  {
  }

  lemma OtherMoves(d: Decisions, at: LogId, payload: Payload)
    requires EntriesOk(d.ledger) && CursorsOk(d.ledger, at.index)
    requires payload.Normal? && !IsClusterCommand(payload.command)
    ensures LedgerMoves(d.ledger, Apply(d, at, payload.command).0.ledger, payload)
  {
    if payload.command.Begin? {
      BeginMoves(d.ledger, at.index, payload);
    } else if payload.command.Commit? {
      CommitMoves(d.ledger, at.index, payload);
    } else {
      assert Apply(d, at, payload.command).0.ledger.committed == d.ledger.committed;
      assert Apply(d, at, payload.command).0.ledger.lastCommit == d.ledger.lastCommit;
    }
  }

  lemma EntryMoves(m: Machine, e: Entry)
    requires DecisionsInv(m.decisions, Next(m.lastApplied)) && ApplyEntry(m, e).Some?
    ensures LedgerMoves(m.decisions.ledger, ApplyEntry(m, e).value.0.decisions.ledger, e.payload)
  {
    if e.payload.Normal? {
      DecisionMoves(m.decisions, e.at, e.payload);
    }
  }

  lemma ClusterNeverCommits(c: Cluster, initialized: bool, command: Command, at: LogId)
    requires IsClusterCommand(command)
    ensures ClusterStep(c, initialized, command, at).1.Ok? ==> !ClusterStep(c, initialized, command, at).1.value.BatchCommitted?
  {
  }

  lemma OnlyCommitCommits(d: Decisions, at: LogId, command: Command)
    requires Apply(d, at, command).1.Ok? && Apply(d, at, command).1.value.BatchCommitted?
    ensures command.Commit? && CommitRefusal(d.ledger, command.prepared, at.index).None?
    ensures d.ledger.preparing.Some?
    ensures Apply(d, at, command).1.value.invocation == EntryFor(d.ledger.preparing.value, at.index)
    ensures Apply(d, at, command).0.ledger == CommitStep(d.ledger, command.prepared, at.index).0
  {
    if IsClusterCommand(command) {
      ClusterNeverCommits(d.cluster, d.clusterId.Some?, command, at);
    }
  }

  // ---- Commits of a log

  ghost predicate Commits(s: Machine, log: seq<Entry>, i: nat, e: CommittedInvocation)
    requires Applies(s, log) && i < |log|
  {
    StepAt(s, log, i);
    ApplyEntry(At(s, log, i), log[i]).value.1 == Applied(BatchCommitted(e))
  }

  lemma CommitAt(s: Machine, log: seq<Entry>, i: nat, e: CommittedInvocation)
    requires Applies(s, log) && i < |log| && Commits(s, log, i, e)
    ensures var (l, l') := (LedgerAt(s, log, i), LedgerAt(s, log, i + 1));
            && l.preparing.Some? && e == EntryFor(l.preparing.value, i)
            && l'.lastCommit == Some(i) && i in l'.committed && l'.committed[i] == e && l'.executor == l.executor
  {
    StateAt(s, log, i);
    StepAt(s, log, i);
    assert log[i].at.index == i;
    OnlyCommitCommits(At(s, log, i).decisions, log[i].at, log[i].payload.command);
  }

  lemma MovesAt(s: Machine, log: seq<Entry>, k: nat)
    requires Applies(s, log) && k < |log|
    ensures LedgerMoves(LedgerAt(s, log, k), LedgerAt(s, log, k + 1), log[k].payload)
  {
    StateAt(s, log, k);
    StepAt(s, log, k);
    EntryMoves(At(s, log, k), log[k]);
  }

  lemma FreshCommit(s: Machine, log: seq<Entry>, i: nat, e: CommittedInvocation)
    requires Applies(s, log) && i < |log| && Commits(s, log, i, e)
    ensures var l := LedgerAt(s, log, i + 1);
            l.lastCommit == Some(i) && l.executor.Some? && e.batch.nomination == l.executor.value.index
  {
    CommitAt(s, log, i, e);
    StateAt(s, log, i);
    assert Fenced(LedgerAt(s, log, i));
  }

  /** The ledgers before, between and after the entries of a log. */
  predicate Chain(ledgers: seq<Ledger>, log: seq<Entry>) {
    |ledgers| == |log| + 1 && forall k :: 0 <= k < |log| ==> LedgerMoves(ledgers[k], ledgers[k + 1], log[k].payload)
  }

  lemma LedgersChain(s: Machine, log: seq<Entry>) returns (ledgers: seq<Ledger>)
    requires Applies(s, log)
    ensures Chain(ledgers, log) && forall k :: 0 <= k <= |log| ==> ledgers[k] == LedgerAt(s, log, k)
  {
    ledgers := seq(|log| + 1, k requires 0 <= k <= |log| => LedgerAt(s, log, k));
    forall k | 0 <= k < |log|
      ensures LedgerMoves(ledgers[k], ledgers[k + 1], log[k].payload)
    {
      MovesAt(s, log, k);
    }
  }

  lemma {:induction false} CursorsAdvance(ledgers: seq<Ledger>, log: seq<Entry>, j: nat, k: nat)
    requires Chain(ledgers, log) && j <= k <= |log|
    ensures var (l, l') := (ledgers[j], ledgers[k]);
            && (l.executor.Some? ==> l'.executor.Some? && l.executor.value.index <= l'.executor.value.index)
            && (l.lastCommit.Some? ==> l'.lastCommit.Some? && l.lastCommit.value <= l'.lastCommit.value)
    decreases k
  {
    if j < k {
      CursorsAdvance(ledgers, log, j, k - 1);
      assert LedgerMoves(ledgers[k - 1], ledgers[k], log[k - 1].payload);
    }
  }

  lemma PreparedAfter(l: Ledger, n: nat, nomination: nat, i: nat)
    requires LedgerInv(l, n) && l.preparing.Some? && l.executor.Some? && nomination <= l.executor.value.index
    requires l.lastCommit.Some? && i <= l.lastCommit.value
    ensures i < l.preparing.value.beginCursor && nomination <= l.preparing.value.request.nomination
  {
  }

  /** Of any two commits of a log the later one began after the earlier one had committed, under no older nomination. */
  lemma CommitsAreSerial(s: Machine, log: seq<Entry>, i: nat, j: nat, e: CommittedInvocation, f: CommittedInvocation)
    requires Applies(s, log) && i < j < |log| && Commits(s, log, i, e) && Commits(s, log, j, f)
    ensures Before(e, f) && e.batch.commitCursor == i && f.batch.commitCursor == j
  {
    CommitAt(s, log, i, e);
    CommitAt(s, log, j, f);
    FreshCommit(s, log, i, e);
    var ledgers := LedgersChain(s, log);
    CursorsAdvance(ledgers, log, i + 1, j);
    StateAt(s, log, j);
    PreparedAfter(ledgers[j], j, e.batch.nomination, i);
  }

  /** A begin that passes its checks and finds the commit at `i` still retained, finalized and expired. */
  predicate Forgotten(l: Ledger, payload: Payload, i: nat, e: CommittedInvocation) {
    && payload.Normal? && payload.command.Begin? && BeginRefusal(l, payload.command.batch).None?
    && Holds(l, i, e) && e.expiresAt <= payload.command.batch.proposedAt
    && l.finalized.Some? && i <= l.finalized.value
  }

  predicate Holds(l: Ledger, i: nat, e: CommittedInvocation) {
    i in l.committed && l.committed[i] == e
  }

  /** An entry that is gone was dropped by a begin in between that found it finalized and expired. */
  lemma {:induction false} RetainedUntilForgotten(
      ledgers: seq<Ledger>, log: seq<Entry>, i: nat, e: CommittedInvocation, j: nat, k: nat)
    returns (m: nat)
    requires Chain(ledgers, log) && j <= k <= |log| && Holds(ledgers[j], i, e)
    ensures Holds(ledgers[k], i, e) || (j <= m < k && Forgotten(ledgers[m], log[m].payload, i, e) && !Holds(ledgers[m + 1], i, e))
    decreases k
  {
    m := 0;
    if j < k {
      m := RetainedUntilForgotten(ledgers, log, i, e, j, k - 1);
      if Holds(ledgers[k - 1], i, e) {
        assert LedgerMoves(ledgers[k - 1], ledgers[k], log[k - 1].payload);
        m := k - 1;
      }
    }
  }

  /** One identity commits twice only if a begin in between dropped the first commit, finalized and expired. */
  lemma CommitsOnceUntilForgotten(s: Machine, log: seq<Entry>, i: nat, j: nat, e: CommittedInvocation, f: CommittedInvocation)
    requires Applies(s, log) && i < j < |log| && Commits(s, log, i, e) && Commits(s, log, j, f)
    requires e.invocation == f.invocation
    ensures exists m :: i < m < j && Forgotten(LedgerAt(s, log, m), log[m].payload, i, e)
                           && !Holds(LedgerAt(s, log, m + 1), i, e)
  {
    CommitAt(s, log, i, e);
    CommitAt(s, log, j, f);
    var ledgers := LedgersChain(s, log);
    var m := RetainedUntilForgotten(ledgers, log, i, e, i + 1, j);
    StateAt(s, log, j);
    PreparedIsNotHeld(ledgers[j], j, i, e);
    assert Forgotten(LedgerAt(s, log, m), log[m].payload, i, e);
  }

  lemma PreparedIsNotHeld(l: Ledger, n: nat, i: nat, e: CommittedInvocation)
    requires LedgerInv(l, n) && l.preparing.Some? && l.preparing.value.request.invocation == e.invocation
    ensures !Holds(l, i, e)
  {
    assert Holds(l, i, e) ==> Retains(l, e.invocation);
  }

  // ---- Admissions and placement

  /** What one step does to the identities, the fence and the ACTIVE nodes. */
  predicate ClusterMoves(c: Cluster, c': Cluster) {
    && c.used <= c'.used
    && (forall id :: id in c'.nodes && id !in c.nodes ==> id !in c.used && id in c'.used)
    && (ActiveWeights(c'.nodes) != ActiveWeights(c.nodes) <==> c'.placement != c.placement)
    && (c.placement.Some? ==> c'.placement.Some?)
  }

  lemma NewNodesAreUnused(c: Cluster, initialized: bool, command: Command, at: LogId, id: NodeId)
    requires IsClusterCommand(command) && id !in c.nodes && id in ClusterStep(c, initialized, command, at).0.nodes
    ensures id !in c.used && id in ClusterStep(c, initialized, command, at).0.used
  {
  }

  lemma DecisionMovesCluster(d: Decisions, at: LogId, command: Command)
    requires DecisionsInv(d, at.index)
    ensures ClusterMoves(d.cluster, Apply(d, at, command).0.cluster)
  {
    if IsClusterCommand(command) {
      ClusterStepKeepsInv(d.cluster, d.clusterId.Some?, command, at);
      var c' := ClusterStep(d.cluster, d.clusterId.Some?, command, at).0;
      forall id | id in c'.nodes && id !in d.cluster.nodes
        ensures id !in d.cluster.used && id in c'.used
      {
        NewNodesAreUnused(d.cluster, d.clusterId.Some?, command, at, id);
      }
    } else {
      OtherKeepsNodes(d, at, command);
    }
  }

  lemma OtherKeepsNodes(d: Decisions, at: LogId, command: Command)
    requires !IsClusterCommand(command)
    ensures var c' := Apply(d, at, command).0.cluster;
            c'.nodes == d.cluster.nodes && c'.used == d.cluster.used && c'.placement == d.cluster.placement
  {
  }

  /** At every entry the placement fence moves exactly when the ACTIVE weights change. */
  lemma EntryMovesCluster(s: Machine, log: seq<Entry>, i: nat)
    requires Applies(s, log) && i < |log|
    ensures ClusterMoves(ClusterAt(s, log, i), ClusterAt(s, log, i + 1))
  {
    StateAt(s, log, i);
    StepAt(s, log, i);
    if log[i].payload.Normal? {
      DecisionMovesCluster(At(s, log, i).decisions, log[i].at, log[i].payload.command);
    }
  }

  /** A moved fence is the identity of the entry that moved it, above the earlier one. */
  predicate FenceMoves(before: Option<LogId>, after: Option<LogId>, at: LogId) {
    after != before ==> after == Some(at) && (before.Some? ==> before.value.index < at.index)
  }

  lemma DecisionMovesFence(d: Decisions, at: LogId, command: Command)
    requires DecisionsInv(d, at.index)
    ensures FenceMoves(d.cluster.placement, Apply(d, at, command).0.cluster.placement, at)
  {
    if !IsClusterCommand(command) {
      OtherKeepsNodes(d, at, command);
    }
  }

  ghost function FenceAt(s: Machine, log: seq<Entry>, i: nat): Option<LogId>
    requires Applies(s, log) && i <= |log|
  {
    ClusterAt(s, log, i).placement
  }

  lemma EntryMovesFence(s: Machine, log: seq<Entry>, i: nat)
    requires Applies(s, log) && i < |log|
    ensures FenceMoves(FenceAt(s, log, i), FenceAt(s, log, i + 1), log[i].at)
  {
    StateAt(s, log, i);
    StepAt(s, log, i);
    if log[i].payload.Normal? {
      DecisionMovesFence(At(s, log, i).decisions, log[i].at, log[i].payload.command);
    }
  }

  predicate FenceChain(fences: seq<Option<LogId>>, log: seq<Entry>) {
    |fences| == |log| + 1 && forall k :: 0 <= k < |log| ==> FenceMoves(fences[k], fences[k + 1], log[k].at)
  }

  /** The same fence, or a higher one that is the identity of an entry from `i` to before `k`. */
  predicate FenceFrom(before: Option<LogId>, after: Option<LogId>, log: seq<Entry>, i: nat, k: nat)
    requires k <= |log|
  {
    after == before || (after.Some? && (before.Some? ==> before.value.index < after.value.index)
                        && exists m :: i <= m < k && log[m].at == after.value)
  }

  lemma {:induction false} FencesAdvance(fences: seq<Option<LogId>>, log: seq<Entry>, i: nat, k: nat)
    requires FenceChain(fences, log) && i <= k <= |log|
    ensures FenceFrom(fences[i], fences[k], log, i, k)
    decreases k
  {
    if i < k {
      FencesAdvance(fences, log, i, k - 1);
      assert FenceMoves(fences[k - 1], fences[k], log[k - 1].at);
    }
  }

  /** Between two moments the fence stands still, or it advances to the identity of an entry between them. */
  lemma FenceAdvances(s: Machine, log: seq<Entry>, i: nat, k: nat)
    requires Applies(s, log) && i <= k <= |log|
    ensures FenceFrom(FenceAt(s, log, i), FenceAt(s, log, k), log, i, k)
  {
    var fences := seq(|log| + 1, m requires 0 <= m <= |log| => FenceAt(s, log, m));
    forall m | 0 <= m < |log|
      ensures FenceMoves(fences[m], fences[m + 1], log[m].at)
    {
      EntryMovesFence(s, log, m);
    }
    FencesAdvance(fences, log, i, k);
  }

  predicate ClusterChain(clusters: seq<Cluster>) {
    forall k :: 0 <= k < |clusters| - 1 ==> ClusterMoves(clusters[k], clusters[k + 1])
  }

  lemma ClustersChain(s: Machine, log: seq<Entry>) returns (clusters: seq<Cluster>)
    requires Applies(s, log)
    ensures |clusters| == |log| + 1 && ClusterChain(clusters)
    ensures forall k :: 0 <= k <= |log| ==> clusters[k] == ClusterAt(s, log, k)
  {
    clusters := seq(|log| + 1, k requires 0 <= k <= |log| => ClusterAt(s, log, k));
    forall k | 0 <= k < |clusters| - 1
      ensures ClusterMoves(clusters[k], clusters[k + 1])
    {
      EntryMovesCluster(s, log, k);
    }
  }

  lemma {:induction false} UsedForever(clusters: seq<Cluster>, i: nat, k: nat)
    requires ClusterChain(clusters) && i <= k < |clusters|
    ensures clusters[i].used <= clusters[k].used
    ensures clusters[i].placement.Some? ==> clusters[k].placement.Some?
    decreases k
  {
    if i < k {
      UsedForever(clusters, i, k - 1);
      assert ClusterMoves(clusters[k - 1], clusters[k]);
    }
  }

  ghost predicate Admits(s: Machine, log: seq<Entry>, i: nat, id: NodeId)
    requires Applies(s, log) && i < |log|
  {
    id !in ClusterAt(s, log, i).nodes && id in ClusterAt(s, log, i + 1).nodes
  }

  /** No identity is admitted twice, even after its node was removed. */
  lemma AdmittedOnce(s: Machine, log: seq<Entry>, i: nat, j: nat, id: NodeId)
    requires Applies(s, log) && i < j < |log| && Admits(s, log, i, id)
    ensures !Admits(s, log, j, id)
  {
    var clusters := ClustersChain(s, log);
    assert ClusterMoves(clusters[i], clusters[i + 1]) && ClusterMoves(clusters[j], clusters[j + 1]);
    UsedForever(clusters, i + 1, j);
  }

  /** Once some node is ACTIVE, some node is ACTIVE ever after. */
  lemma ActiveEverAfter(s: Machine, log: seq<Entry>, i: nat, k: nat)
    requires Applies(s, log) && i <= k <= |log| && ActiveIds(ClusterAt(s, log, i).nodes) != {}
    ensures ActiveIds(ClusterAt(s, log, k).nodes) != {}
  {
    StateAt(s, log, i);
    StateAt(s, log, k);
    var clusters := ClustersChain(s, log);
    UsedForever(clusters, i, k);
    assert PlacementOk(ClusterAt(s, log, i), i) && PlacementOk(ClusterAt(s, log, k), k);
  }
}
