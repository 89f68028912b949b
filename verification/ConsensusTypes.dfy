/**
  Commands, records and errors of the replicated decision machine. Digests,
  fingerprints and pins are numbers here; zero stands for the all-zero bytes
  that the source reserves as invalid.
 */
module ConsensusTypes {
  import opened Prelude

  const RETENTION_MILLIS: nat := 86_400_000
  const MAX_COMMITTED_INVOCATIONS: nat := 4096
  const MAX_COMMITTED_BYTES: nat := 16 * 1024 * 1024
  const BOOTSTRAP_VERSION: nat := 1
  const COMMAND_VERSION: nat := 1
  const MAX_ADDRESS_BYTES: nat := 255
  const FIXED_VOTER_TARGET: nat := 3
  const MAX_NODE_ID: nat := 1023
  const MAX_U64: nat := 0xFFFF_FFFF_FFFF_FFFF

  type NodeId = nat
  type Digest = nat

  datatype Authority =
    | StoredProgram(pathHash: Digest, programHash: Digest)
    | BuiltIn(kind: nat, contractVersion: nat)

  datatype Nomination = Nomination(executor: NodeId, index: nat)

  datatype Bundle = Bundle(hash: Digest, length: nat)

  datatype BeginBatch = BeginBatch(
    executor: NodeId, nomination: nat, authority: Authority, invocation: Digest, fingerprint: Digest,
    bundle: Bundle, durabilityClass: Digest, durabilityEvidence: Digest, manifest: Digest,
    proposedAt: nat, expiresAt: nat)

  datatype PreparedBatch = PreparedBatch(beginCursor: nat, request: BeginBatch)

  /** The identity by which a preparation is committed or aborted. */
  datatype PreparedRef = PreparedRef(
    executor: NodeId, nomination: nat, beginCursor: nat, invocation: Digest, manifest: Digest)

  datatype CommittedBatch = CommittedBatch(
    commitCursor: nat, executor: NodeId, nomination: nat, beginCursor: nat, authority: Authority,
    bundle: Bundle, durabilityClass: Digest, durabilityEvidence: Digest, manifest: Digest)

  datatype CommittedInvocation = CommittedInvocation(
    invocation: Digest, fingerprint: Digest, proposedAt: nat, expiresAt: nat, batch: CommittedBatch)

  datatype Range = Range(min: nat, max: nat)
  datatype NodeState = Joining | Active

  datatype Descriptor = Descriptor(
    nodeId: NodeId, address: string, weight: nat, state: NodeState,
    currentPin: Digest, overlapPin: Option<Digest>, joinCapability: Option<Digest>,
    protocol: Range, storageFormat: Range)

  datatype TransitionKind = Add | Remove | Reweight
  datatype Transition = Transition(kind: TransitionKind, nodeId: NodeId, started: nat, target: Option<nat>)

  datatype ErasureProfile = ErasureProfile(dataShards: nat, parityShards: nat, stripeUnit: nat)

  datatype Bootstrap = Missing | CompleteAt(version: nat, index: nat)

  datatype Command =
    | NominateExecutor(executor: NodeId)
    | Begin(batch: BeginBatch)
    | Commit(prepared: PreparedRef)
    | Abort(prepared: PreparedRef)
    | FinalizedThrough(executor: NodeId, nomination: nat, through: nat)
    | InitializeCluster(clusterId: Digest)
    | CompleteBootstrap(executor: NodeId, nomination: nat, version: nat)
    | BeginAddNode(format: nat, descriptor: Descriptor)
    | BeginRemoveNode(format: nat, nodeId: NodeId)
    | BeginReweightNode(format: nat, nodeId: NodeId, weight: nat)
    | CompleteTransition(format: nat, started: nat)
    | StagePin(format: nat, nodeId: NodeId, expectedCurrent: Digest, overlap: Digest)
    | PromotePin(format: nat, nodeId: NodeId, expectedCurrent: Digest, expectedOverlap: Digest)
    | ClearPin(format: nat, nodeId: NodeId, expectedCurrent: Digest, expectedOverlap: Digest)
    | BindJwt(format: nat, fingerprint: Digest)
    | BindProfile(format: nat, profile: ErasureProfile)
    | RefreshJoining(format: nat, nodeId: NodeId, started: nat,
                     expectedPin: Digest, expectedCapability: Digest,
                     replacementPin: Digest, replacementCapability: Digest)

  datatype ApplyResult =
    | ExecutorNominated(nomination: Nomination)
    | BatchPrepared(prepared: PreparedBatch, replayed: bool)
    | AlreadyCommitted(invocation: CommittedInvocation)
    | BatchCommitted(invocation: CommittedInvocation)
    | BatchAborted(beginCursor: nat)
    | FinalizationAdvanced(through: nat)
    | ClusterInitialized(clusterId: Digest)
    | BootstrapCompleted(bootstrap: Bootstrap)
    | TransitionBegun(transition: Transition)
    | TransitionAdvanced(transition: Transition)
    | TransitionFinished(started: nat)
    | PinChanged(descriptor: Descriptor)
    | JwtBound(fingerprint: Digest)
    | ProfileBound(profile: ErasureProfile)
    | PreparationRefreshed(descriptor: Descriptor)

  datatype ApplyError =
    | InvalidNodeId | ExecutorNotCurrentMember | ExecutorNotActiveMember | ExecutorNotNominated
    | NotCurrentExecutor | NominationFenceMismatch | InvalidBundleAuthority | InvalidInvocationId
    | InvalidInvocationFingerprint | InvalidBundleRef | InvalidDurabilityClass | InvalidDurabilityEvidence
    | InvalidManifest | InvalidProposalTime | InvalidReplayExpiry | IdempotencyConflict
    | BatchPreparationInProgress | NoPreparedBatch | PreparedIdentityMismatch
    | CommitCursorDidNotAdvance | CommitCursorNotAfterFinalization | CommitTailFull | InvocationWindowFull
    | ByteCountExhausted | AccountingCorrupt | NoCommittedBatchToFinalize | FinalizedThroughRegressed
    | FinalizedBeyondLastCommit | InvalidClusterId | ClusterIdentityConflict | ClusterNotInitialized
    | UnsupportedBootstrapVersion | BootstrapVersionConflict | UnsupportedCommandVersion
    | InvalidPeerAddress | InvalidStorageWeight | InvalidCapabilityRange | ActiveNodeLacksCapability
    | InvalidPeerPin | InvalidJoinCapability | AddedNodeMustBeJoining | JoiningNodeRequiresCapability
    | JoiningNodeCannotRotatePin | ActiveNodeRetainsCapability | NodeIdAlreadyUsed | NodeNotAdmitted
    | NodeNotActive | CannotRemoveLastActiveNode | StorageWeightUnchanged | TransitionInProgress
    | NoTransition | TransitionFenceMismatch | TransitionStateMismatch | NodeTransitionInProgress
    | TransitionNodeNotMember | MemberDescriptorMissing | MemberAddressMismatch | RemovingNodeStillMember
    | VoterTargetMismatch | VoterNotActive | PeerAddressAlreadyUsed | PeerPinAlreadyUsed
    | JoinCapabilityAlreadyUsed | PeerPinsMustDiffer | CurrentPinMismatch | OverlapAlreadySet
    | PinPairMismatch | PreparationPairMismatch | PreparationUnchanged | JoiningNodeAlreadyMember
    | InvalidJwtFingerprint | JwtConflict | InvalidErasureProfile | ProfileConflict

  predicate ValidNode(id: NodeId) {
    1 <= id <= MAX_NODE_ID
  }
}
