# Keldra: a verified model of its coordination core

This project models the parts of Keldra that decide, order and commit, and proves properties of them over every input
and every run. Each component has a value-level specification (datatypes and functions), the imperative code written as
classes, loops and methods that are proved equal to that specification, and theorems about whole runs.

| files | component |
|---|---|
| `ServingLease`, `LeaseProtocol`, `LeaseExample` | serving leases as a timed protocol of leaders, recipients, clocks and delayed messages |
| `ConsensusTypes`, `BatchLedger`, `ClusterControl`, `DecisionMachine` | the replicated decision machine and its commands |
| `RaftMembership`, `RaftMachine`, `RaftRuns`, `RaftHistory` | committed entries, Raft membership, the voter planner, and what holds over every log |
| `Durability`, `DurabilityRuns`, `RaftLog` | applied journal, snapshots, crashes and restarts; contiguity of the Raft log |
| `AuthzModel`, `AuthzSchema`, `AuthzEvaluator`, `AuthzTheorems`, `AuthzDepth` | the Zanzibar-style evaluator and its schema compiler |
| `ProgramModel`, `ProgramDefinitions`, `ProgramResolution`, `ProgramEngine`, `ProgramTheorems`, `Serializability` | atomic programs, their bundles, and concurrent histories of them |
| `JsonPointer`, `LockTable` | in-place JSON edits (RFC 6901) and ordered local locking |
| `SortKey`, `VersionClock` | order-preserving scalar keys and the bit-packed version clock |

`dafny verify dfyconfig.toml` checks everything.

## Conventions and assumptions

- Digests, pins, fingerprints and hashes are numbers; zero stands for the all-zero bytes that the code reserves. Error
  values keep the kind of the error and drop its text and payload.
- Integers are unbounded. Where a width matters it is written out: the 64-bit version word, the 64-bit sums of the batch
  ledger, exact `i64` and `u64` JSON integers, array indices below 2^64.
- Clocks are parameters. In `LeaseProtocol` every participant has its own boot clock, whose rate stays within one
  eleventh of real time. A response is paired with its request. A term has one leader process, and that process one
  issuer. A confirmation of a term that started at some instant finds no leader of a later term elected before it.
  A leader applies placements of increasing index, as `FenceAdvances` shows of every committed log.
- Raft membership changes follow OpenRaft: a learner is added if absent, a voter goal is reached through the next
  coherent configuration without retaining dropped voters, and a joint configuration may be completed at any time. Each
  change is guarded as in `peer.rs`, with the guard read in the state where the entry applies, and voter goals come from
  the planner. Log entries are unconstrained otherwise.
- Disk writes are atomic batches. Encoding is the identity. Apply and install exclude each other, and so do build and
  install; a received snapshot is a state of the same committed log.
- No proof uses Dafny's automatic induction; every inductive lemma spells out its recursive call.
- The encoded size of a document and of an invocation is a parameter of a program's evaluation.
- A commit of a program bundle gives every written path a version that no document at that path ever had, which is what
  the version clock provides.

## Findings

- **Genesis window.** The check on a loaded machine (`validate_cluster_membership`) asks for as many voters as there are
  ACTIVE nodes. Between the admission and the activation of the first node there are none, while the group already has
  a voter, so the check fails and a machine restarted there refuses to load. `RunIsValid` shows that this is the only
  such time in any run, `RestartRebuildsFold` states the exact condition for a restart, and `GenesisWindowIsReached`
  gives a run of three entries that gets there.
- **A refused begin may prune.** `begin_batch` prunes before it looks for a replay or a conflict, so a rejected command
  can still change the state. `RefusedBeginUnchangedIff` gives the exact condition, `RefusedBeginMayPrune` a run from a new ledger.
- **Version range.** Past the last 42-bit millisecond the next version falls below the watermark. `NextExceedsWatermark`
  gives the exact condition, `RangeExhausted` an instance.
- **Truncation beyond the end.** `truncate_logs` forgets the last log identity when asked to cut after the end of a log
  that still has entries. `TruncateKeepsContiguousIff` gives the exact condition, `TruncateBeyondEnd` an instance.
- **The byte limit of the replay window never decides.** Entries are at most 324 bytes, so 4096 of them stay far below
  16 MiB and only the entry count is ever reached (`WindowCountDecides`).

## Model

| member | source | states |
|---|---|---|
| `LeaseProtocol.OneAuthorityAtATime` | crates/keldra-consensus/src/serving_lease.rs:148-287 | in every timed run, two leases valid at the same instant, on any recipients, name the same Raft term and placement |
| `LeaseProtocol.PauseDrainsIssuer` | crates/keldra-consensus/src/serving_lease.rs:234-268 | once grants are paused and the cutover wait has passed on the issuer's clock, no lease from that issuer is valid |
| `LeaseProtocol.TermsDoNotOverlap` | crates/keldra-consensus/src/raft.rs:695-739 | a lease of an older term has ended before any grant of a newer term can have been let out |
| `LeaseProtocol.PlacementsDoNotOverlap` | crates/keldra-consensus/src/serving_lease.rs:270-287 | so has a lease of an older placement before a newer placement is served in the same term |
| `LeaseProtocol.LeaseIsShort` | crates/keldra-consensus/src/serving_lease.rs:167-232 | a valid lease stems from a permitted grant whose request is less than eleven tenths of the maximum lifetime old in real time |
| `LeaseExample.ALeaseIsServed` | crates/keldra-consensus/src/serving_lease.rs:248-287 | a concrete run reaches a valid lease: the first grant starts the cutover wait, and the one asked for after it is let out and accepted |
| `LeaseProtocol.RunKeepsInv` | crates/keldra-consensus/src/serving_lease.rs:292-330 | every run keeps each proof, pending grant, observation, response and lease justified by the instants it depends on |
| `ServingLease.ServingLeaseState.AcceptGrant` | crates/keldra-consensus/src/serving_lease.rs:167-218 | as specified; a new lease ends within the maximum lifetime of its own request, terms never regress, a lease of the same term never gets shorter, and no lease of another cluster, placement or term is kept |
| `ServingLease.ServingLeaseState.SetActivePlacement` | crates/keldra-consensus/src/serving_lease.rs:148-156 | a new placement drops the lease and never lowers the term; the same placement changes nothing |
| `ServingLease.ServingLeaseCutover.PermitsIdentity` | crates/keldra-consensus/src/serving_lease.rs:271-287 | as specified; an identity passes only if the guard had already been observing it |
| `BatchLedger.StateMachine.NominateExecutor` | crates/keldra-consensus/src/state_machine.rs:339-359 | re-nomination moves the preparing batch to the new executor and fence |
| `BatchLedger.StateMachine.BeginBatchAt` | crates/keldra-consensus/src/state_machine.rs:361-408 | begin checks, prunes, then replays, refuses or prepares, as specified; the byte counter keeps matching what is retained |
| `BatchLedger.StateMachine.CommitPreparedBatch` | crates/keldra-consensus/src/state_machine.rs:410-504 | commit appends exactly the prepared batch at its log index or refuses as specified; counter, distinctness and bounds are kept |
| `BatchLedger.StateMachine.AbortPreparedBatch` | crates/keldra-consensus/src/state_machine.rs:506-524 | abort clears exactly the named preparation |
| `BatchLedger.StateMachine.AdvanceFinalization` | crates/keldra-consensus/src/state_machine.rs:526-563 | finalization moves forward only, and never past the last commit |
| `BatchLedger.StateMachine.ExpiredFinalizedCursors` | crates/keldra-consensus/src/state_machine.rs:565-576 | lists, without repetition, exactly the finalized and expired cursors |
| `BatchLedger.StateMachine.PruneCommittedInvocations` | crates/keldra-consensus/src/state_machine.rs:578-589 | removes exactly the given cursors, keeps the byte counter exact, and never reports corrupt accounting |
| `BatchLedger.StateMachine.MeasureTail` | crates/keldra-consensus/src/state_machine.rs:109-139 | length and checked byte sum of the unfinalized tail; the sum never overflows |
| `BatchLedger.StateMachine.CheckCapacity` | crates/keldra-consensus/src/state_machine.rs:464-491 | refuses exactly when the replay window or the unfinalized tail would exceed its limits |
| `BatchLedger.BeginKeepsInv` | crates/keldra-consensus/src/state_machine.rs:361-408 | begin keeps fences, cursors, disjoint commit intervals, distinct identities and both size limits |
| `BatchLedger.CommitKeepsInv` | crates/keldra-consensus/src/state_machine.rs:410-504 | so does commit, and the two cursor-regression errors are unreachable |
| `BatchLedger.NominateKeepsInv` | crates/keldra-consensus/src/state_machine.rs:339-359 | so does re-nomination: the preparing batch carries the nomination in force |
| `BatchLedger.AbortKeepsInv` | crates/keldra-consensus/src/state_machine.rs:506-524 | so does abort |
| `BatchLedger.FinalizeKeepsInv` | crates/keldra-consensus/src/state_machine.rs:526-563 | so does finalization |
| `BatchLedger.PruneKeepsSizes` | crates/keldra-consensus/src/state_machine.rs:565-589 | pruning never touches an unfinalized entry and keeps the limits |
| `BatchLedger.WindowCountDecides` | crates/keldra-consensus/src/state_machine.rs:464-478 | in every reachable state the replay window is full exactly when its entry count is, never by bytes |
| `BatchLedger.RefusedBeginUnchangedIff` | crates/keldra-consensus/src/state_machine.rs:369-370 | a refused begin leaves the state unchanged if and only if it failed its checks or nothing was finalized and expired |
| `BatchLedger.RefusedBeginMayPrune` | crates/keldra-consensus/src/state_machine.rs:369-370 | a run of six commands from a new ledger whose last begin is refused and yet forgets a commit |
| `UsedIds.UsedNodeIds.Insert` | crates/keldra-consensus/src/types.rs:111-136 | the 1024-bit bitmap refines a set: inserting adds one identity and forgets none |
| `ClusterControl.ClusterController.BeginAdd` | crates/keldra-consensus/src/cluster_control.rs:16-64 | admission admits, replays or refuses as specified, on the set that the bitmap stands for |
| `ClusterControl.ClusterController.BeginRemove` | crates/keldra-consensus/src/cluster_control.rs:66-101 | removal begins, replays or refuses as specified |
| `ClusterControl.ClusterController.BeginReweight` | crates/keldra-consensus/src/cluster_control.rs:103-145 | reweighting begins, replays or refuses as specified |
| `ClusterControl.ClusterController.Complete` | crates/keldra-consensus/src/cluster_control.rs:147-235 | completion activates, releases, removes or reweighs as specified |
| `ClusterControl.ClusterController.RefreshJoiningPreparation` | crates/keldra-consensus/src/cluster_control.rs:237-312 | a compare-and-swap of the joining node's pin and capability as a pair: success needs the expected pair and a pin no other node has, changes that node only and keeps its address and state, a failure changes nothing, and repeating the command changes nothing and answers the same |
| `ClusterControl.ClusterController.StagePeerPin` | crates/keldra-consensus/src/cluster_control.rs:314-339 | an overlap pin is staged only if no other node has it |
| `ClusterControl.ClusterController.PromotePeerPin` | crates/keldra-consensus/src/cluster_control.rs:341-366 | promotion swaps the two pins, and repeating it changes nothing |
| `ClusterControl.ClusterController.ClearPeerPin` | crates/keldra-consensus/src/cluster_control.rs:368-391 | clearing removes the named overlap pin, and repeating it changes nothing |
| `ClusterControl.ClusterController.EnsureDescriptorUnique` | crates/keldra-consensus/src/cluster_control.rs:554-574 | reports the clash with the lowest node identity |
| `ClusterControl.ClusterStepKeepsInv` | crates/keldra-consensus/src/cluster_control.rs:16-391 | every command keeps addresses and pins disjoint, at most one node JOINING, every admitted identity used, the transition justified and an ACTIVE node once there was one; the placement fence moves exactly when the ACTIVE weights change |
| `DecisionMachine.DecisionState.Decide` | crates/keldra-consensus/src/state_machine.rs:162-277 | applying a command in place gives exactly the specified new state and answer |
| `DecisionMachine.ApplyKeepsInv` | crates/keldra-consensus/src/state_machine.rs:162-277 | every command keeps the invariants of both halves of the machine |
| `RaftMembership.PlanVoters` | crates/keldra-consensus/src/membership.rs:150-205 | succeeds exactly when someone is eligible and no more than three eligible nodes vote; then picks min(eligible, 3) eligible voters, keeps every healthy one and adds the lowest identities |
| `RaftMembership.PlanIsUnique` | crates/keldra-consensus/src/membership.rs:182-205 | those conditions determine the voter set |
| `RaftMembership.PlanResumes` | crates/keldra-consensus/src/membership.rs:123-228 | from the joint configuration of a half-done change, planning again gives the same set and the next step finishes it |
| `RaftMembership.PlanPassesGuard` | crates/keldra-consensus/src/peer.rs:268-345 | a plan always passes the guard of the membership change |
| `RaftMembership.ActionKeepsInv` | crates/keldra-consensus/src/peer.rs:204-371 | every guarded membership change keeps members described at their addresses, ACTIVE nodes members, voters ACTIVE and counted |
| `RaftMembership.Coordinator.ApplyFixedVoters` | crates/keldra-consensus/src/membership.rs:123-228 | once a node is ACTIVE it succeeds exactly for the activated ADD or the REMOVE it names, and leaves the planned voters alone in one configuration without the leaving node |
| `RaftMembership.Coordinator.ChangeMembership` | crates/keldra-consensus/src/peer.rs:268-345 | the guarded change runs through the joint configuration to the goal, or changes nothing |
| `RaftMachine.MachineState.CheckAdmission` | crates/keldra-consensus/src/raft.rs:984-996 | answers for the lowest member that an admission would leave without a matching descriptor |
| `RaftMachine.MachineState.CheckVoters` | crates/keldra-consensus/src/raft.rs:1106-1132 | passes exactly when the voters are ACTIVE and as many as expected |
| `RaftMachine.MachineState.CheckCompletion` | crates/keldra-consensus/src/raft.rs:1029-1086 | a transition completes only when membership and voters already show what it asked for |
| `RaftMachine.MachineState.CheckCommand` | crates/keldra-consensus/src/raft.rs:979-1093 | the check in front of every command gives the one specified answer |
| `RaftMachine.RefusalIsUnique` | crates/keldra-consensus/src/raft.rs:979-1093 | that answer is determined by membership, cluster and command |
| `RaftMachine.MachineState.ApplyNext` | crates/keldra-consensus/src/raft.rs:935-963 | an entry out of place is refused and changes nothing; any other gives exactly the specified state and response |
| `RaftMachine.MachineState.ValidateClusterMembership` | crates/keldra-consensus/src/raft.rs:86-180 | the loops accept exactly the states in which members, descriptors, transition and voters agree |
| `RaftRuns.CommandKeepsMembers` | crates/keldra-consensus/src/raft.rs:979-1093 | every command that passes its check keeps descriptors and membership in step |
| `RaftRuns.RunKeepsInv` | crates/keldra-consensus/src/raft.rs:935-963 | every guarded log keeps the decision and membership invariants |
| `RaftRuns.RunIsValid` | crates/keldra-consensus/src/raft.rs:86-180 | in every guarded run the membership check passes if and only if the run is not in the genesis window |
| `RaftRuns.ValidIffNotGenesisWindow` | crates/keldra-consensus/src/raft.rs:169-174 | under the invariants, the check fails exactly while no node is ACTIVE and the group already has voters |
| `RaftRuns.GenesisWindowIsReached` | crates/keldra-consensus/src/raft.rs:169-174 | a guarded run of three entries ends in the genesis window |
| `RaftRuns.PlannedTransitionCompletes` | crates/keldra-consensus/src/raft.rs:1029-1086 | once the planned voters stand alone, the completion that waits for them is let through |
| `RaftHistory.CommitsAreSerial` | crates/keldra-consensus/src/state_machine.rs:410-504 | of any two commits in any log, the later began after the earlier committed, under no older nomination |
| `RaftHistory.CommitsOnceUntilForgotten` | crates/keldra-consensus/src/state_machine.rs:361-504 | one identity commits twice only if a begin in between passed its checks, found the first commit finalized and expired, and dropped it |
| `RaftHistory.RetainedUntilForgotten` | crates/keldra-consensus/src/state_machine.rs:565-589 | a commit is retained until a begin that passes its checks and finds it finalized and expired drops it |
| `RaftHistory.StateAt` | crates/keldra-consensus/src/raft.rs:935-963 | every state of every log keeps the decision invariant, so sizes, fences and distinctness hold throughout |
| `RaftHistory.AdmittedOnce` | crates/keldra-consensus/src/cluster_control.rs:16-64 | in every log no node identity is admitted twice, even after removal |
| `RaftHistory.EntryMovesCluster` | crates/keldra-consensus/src/cluster_control.rs:147-235 | at every entry of every log the placement fence moves exactly when the ACTIVE weights change, and new nodes have unused identities |
| `RaftHistory.FenceAdvances` | crates/keldra-consensus/src/cluster_control.rs:147-235 | between any two moments of any log the placement fence stands still, or it is now the identity of an entry between them, with a higher index than before |
| `RaftHistory.ActiveEverAfter` | crates/keldra-consensus/src/cluster_control.rs:66-101 | once some node is ACTIVE, some node is ACTIVE ever after |
| `Durability.DurableStore.AppendApplied` | crates/keldra-consensus/src/raft_storage.rs:296-314 | the journal gains exactly the batch, keyed by log index |
| `Durability.DurableStore.ScanApplied` | crates/keldra-consensus/src/raft_storage.rs:316-326 | the journal in key order |
| `Durability.DurableStore.SaveSnapshot` | crates/keldra-consensus/src/raft_storage.rs:328-364 | a built snapshot drops exactly the journal entries it covers, an installed one all of them; the rest stay as they were |
| `Durability.DurableStore.LoadMachine` | crates/keldra-consensus/src/raft.rs:897-928 | loading gives the specified machine, or the specified error |
| `Durability.ValidateAppliedSequence` | crates/keldra-consensus/src/raft.rs:965-977 | accepts exactly the batches that continue the applied log without a hole |
| `Durability.StateMachineStorage.ApplyBatch` | crates/keldra-consensus/src/raft.rs:483-515 | a batch with a hole changes nothing; any other is journaled and then folded into memory entry by entry |
| `DurabilityRuns.BatchIsConsecutive` | crates/keldra-consensus/src/raft.rs:965-977 | that check never refuses the next entries of the committed log |
| `DurabilityRuns.RestartRebuildsFold` | crates/keldra-consensus/src/raft.rs:897-932 | after every interleaving of apply, build, install, crash and restart, loading rebuilds exactly the fold of all durably applied entries, generation aside, and refuses if and only if that fold lies in the genesis window |
| `DurabilityRuns.LoadRebuilds` | crates/keldra-consensus/src/raft.rs:897-932 | no journal gap and no metadata or configuration mismatch is ever met |
| `DurabilityRuns.DurableForever` | crates/keldra-consensus/src/raft_storage.rs:296-377 | an entry once durably applied stays so, whatever happens next |
| `DurabilityRuns.StepKeepsInv` | crates/keldra-consensus/src/raft.rs:419-581 | every event keeps snapshot plus journal equal to the durable prefix of the log, and memory a prefix of it |
| `RaftLog.LogStore.AppendLogs` | crates/keldra-consensus/src/raft_storage.rs:144-189 | refuses a batch with a hole or at the wrong place, otherwise writes exactly that batch |
| `RaftLog.LogStore.TruncateLogs` | crates/keldra-consensus/src/raft_storage.rs:212-255 | removes exactly the entries from the cut to the recorded end and changes no other, or refuses a cut in the purged part |
| `RaftLog.LogStore.PurgeLogs` | crates/keldra-consensus/src/raft_storage.rs:257-291 | removes exactly the entries up to the purged identity and changes no other, or refuses to go back |
| `RaftLog.AppendKeepsContiguous` | crates/keldra-consensus/src/raft_storage.rs:144-189 | no append ever leaves a hole |
| `RaftLog.PurgeKeepsContiguous` | crates/keldra-consensus/src/raft_storage.rs:257-291 | nor does a purge, even beyond the end |
| `RaftLog.TruncateKeepsContiguousIff` | crates/keldra-consensus/src/raft_storage.rs:212-255 | a cut keeps the log contiguous if and only if it is refused, lies within the end or the log is empty |
| `RaftLog.TruncateBeyondEnd` | crates/keldra-consensus/src/raft_storage.rs:212-255 | an instance of a cut that does not |
| `RaftLog.RunsStayContiguous` | crates/keldra-consensus/src/raft_storage.rs:144-291 | from an empty store, no run of appends, purges and cuts within the end ever leaves a hole |
| `AuthzSchema.Compile` | crates/keldra-authz/src/schema.rs:32-58 | succeeds if and only if the limits are valid, the definition is well formed and its every reference is declared |
| `AuthzSchema.ClosedDecides` | crates/keldra-authz/src/schema.rs:129-214 | all compiled forms of one definition are closed or none is |
| `AuthzSchema.CompileNamespace` | crates/keldra-authz/src/schema.rs:290-321 | accepts exactly the well-formed namespaces and compiles every relation under its name |
| `AuthzSchema.CompileRelation` | crates/keldra-authz/src/schema.rs:323-371 | accepts exactly the well-formed relations, keeps their items as sets and their rules in ascending order |
| `AuthzSchema.ValidateReferences` | crates/keldra-authz/src/schema.rs:129-214 | passes exactly when every selector and rewrite names declared relations |
| `AuthzEvaluator.IndexTuples` | crates/keldra-authz/src/evaluator.rs:31-74 | succeeds exactly if the tuples are distinct, valid and within the limit, then indexes exactly those, subjects in ascending order; a tuple it blames is invalid or repeated |
| `AuthzEvaluator.Build` | crates/keldra-authz/src/evaluator.rs:31-74 | succeeds if and only if the definition compiles and the tuples are bounded, distinct and well typed under it; the view then has the compiled, closed schema and indexes exactly those tuples |
| `AuthzEvaluator.TypedDecides` | crates/keldra-authz/src/evaluator.rs:31-74 | all compiled forms of one definition accept the same tuples |
| `AuthzEvaluator.Evaluator.ResolveUserset` | crates/keldra-authz/src/evaluator.rs:197-240 | the search that updates visited set, memo and step count in place gives the specified answer and state |
| `AuthzEvaluator.RunChecks` | crates/keldra-authz/src/evaluator.rs:82-92 | the batch loop computes the specified answers |
| `AuthzTheorems.MemberIsLeastFixpoint` | crates/keldra-authz/src/evaluator.rs:242-319 | the membership relation used below is the least set closed under the direct, inherit and tuple-to-userset rules |
| `AuthzTheorems.ReachesIffSupported` | crates/keldra-authz/src/evaluator.rs:209-239 | cutting cycles at the usersets on the current path loses no membership |
| `AuthzTheorems.CheckDecidesMembership` | crates/keldra-authz/src/evaluator.rs:94-121 | whenever a check answers, it answers membership in the least fixpoint, on cyclic graphs too |
| `AuthzTheorems.MemoKeepsAnswer` | crates/keldra-authz/src/evaluator.rs:94-121 | with any sound memo of any capacity, a check that answers alone answers the same, and no answer is wrong |
| `AuthzTheorems.BatchRefinesChecks` | crates/keldra-authz/src/evaluator.rs:82-121 | a batch answers whenever each check alone does, with the same answers, and any answer it gives is right |
| `AuthzTheorems.EdgesAreDeclared` | crates/keldra-authz/src/schema.rs:271-288 | in a built view rules and tuples lead only to declared relations |
| `AuthzTheorems.ClosedWorld` | crates/keldra-authz/src/evaluator.rs:333-392 | in a built view a well-formed check can fail only on its depth or step limit |
| `AuthzTheorems.ClosedWorldBatch` | crates/keldra-authz/src/evaluator.rs:82-121 | so can a batch of such checks, whatever the memo holds on the way |
| `AuthzDepth.SmallRegionNeedsOnlySteps` | crates/keldra-authz/src/evaluator.rs:197-240 | if fewer usersets than the depth limit are reachable, cycles included, a well-formed check fails only on its step limit |
| `AuthzDepth.SmallRegionBatchNeedsOnlySteps` | crates/keldra-authz/src/evaluator.rs:82-121 | so does a batch of such checks, whatever the memo holds on the way |
| `ProgramDefinitions.Validate` | crates/keldra-atomic-program/src/engine.rs:425-594 | accepts exactly the well-formed definitions |
| `ProgramDefinitions.PathIntent` | crates/keldra-atomic-program/src/engine.rs:385-423 | put and delete intent hold exactly when an initial value or some operation can leave a live value or a tombstone |
| `ProgramResolution.Resolve` | crates/keldra-atomic-program/src/engine.rs:141-280 | exactly the bindable invocations resolve, every binding once, paths distinct and in strict order, and the cap on paths never fires |
| `ProgramResolution.Canonicalize` | crates/keldra-atomic-program/src/engine.rs:355-382 | replaces aliases and refuses exactly the unresolved ones and those that meet at one object |
| `ProgramEngine.EvaluateOperation` | crates/keldra-atomic-program/src/engine.rs:879-971 | each of the five operations, through in-place JSON edits and checked integer addition, gives the specified working documents; a success changes only its target, a failure nothing |
| `ProgramEngine.AddInteger` | crates/keldra-atomic-program/src/engine.rs:1094-1145 | the signed and unsigned branches give the exact sum if it is representable and within bounds, and none otherwise |
| `ProgramEngine.Evaluate` | crates/keldra-atomic-program/src/engine.rs:282-352 | the loops compute the specified bundle or error, a function of the snapshot alone |
| `ProgramTheorems.BundleRespectsIntents` | crates/keldra-atomic-program/src/engine.rs:282-423 | for every validated definition and accepted invocation, canonicalized or not, participants are exactly the locked and read paths in strict order; live writes have put intent, tombstones delete intent, read-only slots are never written, and each carries the head that was read |
| `ProgramTheorems.WriteCapNeverFires` | crates/keldra-atomic-program/src/engine.rs:309-316 | for a validated definition and an accepted invocation, canonicalized or not, the run-time cap on writes never fires |
| `ProgramTheorems.ContentMatchesIntent` | crates/keldra-atomic-program/src/engine.rs:385-423 | an operation that leaves a live value is a putting one, and one that leaves none a deleting one |
| `Serializability.HistoriesAreSerial` | crates/keldra-atomic-program/src/model.rs:445-472 | every concurrent history of reads, commits, ordinary writes and failures leaves the store, bundles and outputs of running the committed programs one at a time in commit order |
| `Serializability.ReadsAreCurrent` | crates/keldra-atomic-program/src/engine.rs:120-139 | if all observed heads still match, the program would read now exactly what it read |
| `JsonPointer.DecodeToken` | crates/keldra-atomic-program/src/json.rs:113-128 | the one-pass decoder agrees with the two-pass rule of section 4 of RFC 6901 on valid tokens and rejects all others |
| `JsonPointer.ParsePointer` | crates/keldra-atomic-program/src/json.rs:101-111 | a pointer parses to its decoded reference tokens exactly when it is well formed |
| `JsonPointer.IndexInjective` | crates/keldra-atomic-program/src/json.rs:130-143 | different index tokens name different elements |
| `JsonPointer.SetSelects` | crates/keldra-atomic-program/src/json.rs:14-42 | selecting after a set gives the new value, and every pointer beside it selects what it did |
| `JsonPointer.RemoveSelects` | crates/keldra-atomic-program/src/json.rs:44-71 | a removed member is gone, later array elements move down by one, and every pointer beside the edit selects what it did |
| `JsonPointer.JsonCell.SetAt` | crates/keldra-atomic-program/src/json.rs:14-42 | the in-place set gives the specified value, and a failed one changes nothing |
| `JsonPointer.JsonCell.RemoveAt` | crates/keldra-atomic-program/src/json.rs:44-71 | the in-place removal gives the specified value, and a failed one changes nothing |
| `LockTable.LocalLockManager.Prepare` | crates/keldra-atomic-program/src/locks.rs:21-46 | prunes dead entries and finds or creates one mutex for each path, in canonical order |
| `LockTable.LocksExclude` | crates/keldra-atomic-program/src/locks.rs:19-68 | in every run with cancellation anywhere and guards released one by one, each path has one live mutex and no two tasks hold one path |
| `LockTable.NoDeadlock` | crates/keldra-atomic-program/src/locks.rs:48-56 | the wait-for graph has no cycle in any run |
| `LockTable.SomeoneProceeds` | crates/keldra-atomic-program/src/locks.rs:48-56 | while a task waits, some task can take its next lock, or holds all it refers to and can only let go |
| `SortKey.EncodeScalarSortKey` | crates/keldra-index/src/typed_json.rs:423-475 | the encoder gives the key of the normalized value and fails exactly on numbers that are not finite |
| `SortKey.KeysSortLikeValues` | crates/keldra-index/src/typed_json.rs:395-475 | for canonical values and any suffixes, keys sort exactly like the values |
| `SortKey.KeysArePrefixFree` | crates/keldra-index/src/typed_json.rs:423-475 | keys that start the same bytes are keys of the same value |
| `SortKey.NumbersOrderNumerically` | crates/keldra-index/src/typed_json.rs:395-411 | the total order on canonical binary64 patterns is the numeric order of the numbers they stand for |
| `SortKey.DecodeScalarSortKey` | crates/keldra-index/src/typed_json.rs:479-567 | decodes exactly the bytes that start with a key, to its value and exact length, and so re-encodes to the bytes consumed |
| `Clock.VersionClock.NextAt` | crates/keldra-store/src/clock.rs:59-93 | issues the specified version, stamped with the node, above the watermark if and only if the range is not exhausted; an error changes nothing |
| `Clock.VersionClock.Observe` | crates/keldra-store/src/clock.rs:54-57 | raises the watermark to the observed version and nothing else |
| `Clock.PackedFields` | crates/keldra-store/src/clock.rs:59-93 | the bitwise packing of the three fields is their scaled sum, so they do not overlap |
| `Clock.NextExceedsWatermark` | crates/keldra-store/src/clock.rs:59-93 | exactly when an issued version exceeds the watermark |
| `Clock.RangeExhausted` | crates/keldra-store/src/clock.rs:59-93 | an instance past the 42-bit range where it does not |
| `Clock.VersionsNeverRepeat` | crates/keldra-store/src/clock.rs:33-93 | in every in-range run of a fleet, with stalled clocks, restarts and learned versions, a version exceeds all its node saw and is never issued twice |

## Left out

- TLS, the Tonic transport, RPC authorization, the command line, the client and the generated protobuf code: I/O around the modelled core.
- OpenRaft elections and replication, RocksDB, the record codec and BLAKE3: assumptions as listed above.
- Building and installing a snapshot in place: they are events of `DurabilityRuns` on machine values, since decoding a snapshot into a live machine is the identity here; `LoadMachine` takes the decoded machine as an argument.
- Positive commit limits: `StateMachine::new` rejects zero limits; the model keeps every limit, for which the theorems hold as well.
- Learner catch-up before activation: it only waits for replication and adds the learner through the guarded call that is modelled.
- Parsing template text: a path template is given as its list of literal parts and fields; expansion, validity of names and substitution checks are modelled.
- The identity fields of a command receipt: they are copied from the invocation; the outputs, which are computed, are modelled.
- Floating-point JSON values: two are equal here when their texts are.
- AuthzSchema.Compile: does not say which of several schema errors is reported, since they share one kind.
- ProgramResolution.Resolve: checks a whole slot before it looks for repeated paths, where the code interleaves the two; every failure has the same error kind.
- The lease issuer's `is leader in this term` test on a cached proof: the model allows the proof to be used without it, so the theorems cover more runs.
- Content indexes, the typed JSON validator, compaction planning, blob upload and Git support: other subsystems, or one-function arithmetic.
