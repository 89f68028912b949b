/** The 1024-bit evidence that a node identity was ever admitted. */
module UsedIds {
  function Mask(bit: bv6): bv64 {
    1 << (bit as bv64)
  }

  lemma MasksDisjoint(a: bv6, b: bv6)
    ensures Mask(a) != 0
    ensures a != b ==> Mask(a) & Mask(b) == 0
  {
  }

  lemma SetBit(word: bv64, a: bv6, b: bv6)
    ensures (word | Mask(a)) & Mask(b) != 0 <==> (a == b || word & Mask(b) != 0)
  {
    MasksDisjoint(a, b);
  }

  /** The bit of an identity within its word. */
  function Bit(id: nat): bv6 {
    (id % 64) as bv6
  }

  lemma BitOf(id: nat)
    ensures Bit(id) as int == id % 64
  {
  }

  lemma BitsApart(id: nat, other: nat)
    requires id / 64 == other / 64
    ensures Bit(id) == Bit(other) <==> id == other
  {
    BitOf(id);
    BitOf(other);
  }

  predicate HasBit(word: bv64, bit: bv6) {
    word & Mask(bit) != 0
  }

  function WithBit(word: bv64, bit: bv6): bv64 {
    word | Mask(bit)
  }

  lemma WithBitAdds(word: bv64, a: bv6, b: bv6)
    ensures HasBit(WithBit(word, a), b) <==> HasBit(word, b) || a == b
  {
    SetBit(word, a, b);
  }

  class UsedNodeIds {
    const words: array<bv64>

    ghost predicate Valid()
      reads this
    {
      words.Length == 16
    }

    constructor ()
      ensures Valid() && fresh(words) && Ids() == {}
    {
      words := new bv64[16](_ => 0);
    }

    predicate Contains(id: nat)
      requires Valid()
      reads this, words
    {
      id / 64 < 16 && HasBit(words[id / 64], Bit(id))
    }

    /** The set that the bitmap stands for. */
    ghost function Ids(): (ids: set<nat>)
      requires Valid()
      reads this, words
      ensures forall id: nat :: id in ids <==> Contains(id)
    {
      set id | 0 <= id < 1024 && Contains(id)
    }

    /** Setting one bit adds one identity and forgets none. */
    method Insert(id: nat)
      requires Valid() && id < 1024
      modifies words
      ensures Ids() == old(Ids()) + {id}
    {
      ghost var before := words[..];
      words[id / 64] := WithBit(words[id / 64], Bit(id));
      forall other: nat
        ensures Contains(other) <==> old(Contains(other)) || other == id
      {
        if other / 64 == id / 64 {
          WithBitAdds(before[id / 64], Bit(id), Bit(other));
          BitsApart(id, other);
        }
      }
    }
  }
}

/** Cluster admission, removal and reweighting, and peer-pin rotation. */
module ClusterControl {
  import opened Prelude
  import opened Text
  import opened LogIds
  import opened ConsensusTypes
  import opened UsedIds

  type Nodes = map<NodeId, Descriptor>
  type Outcome = Result<ApplyResult, ApplyError>

  datatype Cluster = Cluster(
    nodes: Nodes, used: set<NodeId>, transition: Option<Transition>,
    jwt: Option<Digest>, profile: Option<ErasureProfile>, placement: Option<LogId>,
    protocolVersion: nat, storageFormat: nat)

  // ---- Pure checks

  /** Cluster-control commands need the current format and an initialized cluster. */
  function ControlRefusal(initialized: bool, format: nat): Option<ApplyError> {
    if format != COMMAND_VERSION then Some(UnsupportedCommandVersion)
    else if !initialized then Some(ClusterNotInitialized)
    else None
  }

  predicate ValidAddress(a: string) {
    a != "" && Bytes(a) <= MAX_ADDRESS_BYTES && forall i :: 0 <= i < |a| ==> !IsControl(a[i]) && !IsWhitespace(a[i])
  }

  predicate ValidRange(r: Range) {
    r.min != 0 && r.min <= r.max
  }

  predicate InRange(r: Range, version: nat) {
    r.min <= version <= r.max
  }

  function DescriptorRefusal(d: Descriptor): Option<ApplyError> {
    if !ValidNode(d.nodeId) then Some(InvalidNodeId)
    else if !ValidAddress(d.address) then Some(InvalidPeerAddress)
    else if d.weight == 0 then Some(InvalidStorageWeight)
    else if d.currentPin == 0 || d.overlapPin == Some(0) then Some(InvalidPeerPin)
    else if d.overlapPin == Some(d.currentPin) then Some(PeerPinsMustDiffer)
    else if !ValidRange(d.protocol) || !ValidRange(d.storageFormat) then Some(InvalidCapabilityRange)
    else if d.state.Joining? then
      if d.joinCapability.None? then Some(JoiningNodeRequiresCapability)
      else if d.joinCapability == Some(0) then Some(InvalidJoinCapability)
      else if d.overlapPin.Some? then Some(JoiningNodeCannotRotatePin)
      else None
    else if d.joinCapability.Some? then Some(ActiveNodeRetainsCapability)
    else None
  }

  /** How an admitted descriptor clashes with a candidate. */
  function Clash(d: Descriptor, candidate: Descriptor): Option<ApplyError> {
    if d.address == candidate.address then Some(PeerAddressAlreadyUsed)
    else if d.currentPin == candidate.currentPin || d.overlapPin == Some(candidate.currentPin) then Some(PeerPinAlreadyUsed)
    else if candidate.joinCapability.Some? && candidate.joinCapability == d.joinCapability then Some(JoinCapabilityAlreadyUsed)
    else None
  }

  /** The clash with the lowest node identity from `id` on. */
  function FirstClash(nodes: Nodes, candidate: Descriptor, id: nat): Option<ApplyError>
    decreases MAX_NODE_ID + 1 - id
  {
    if id > MAX_NODE_ID then None
    else if id in nodes && Clash(nodes[id], candidate).Some? then Clash(nodes[id], candidate)
    else FirstClash(nodes, candidate, id + 1)
  }

  predicate PinTaken(nodes: Nodes, id: NodeId, pin: Digest) {
    exists other :: other in nodes && other != id && (nodes[other].currentPin == pin || nodes[other].overlapPin == Some(pin))
  }

  predicate CapabilityTaken(nodes: Nodes, id: NodeId, capability: Digest) {
    exists other :: other in nodes && other != id && nodes[other].joinCapability == Some(capability)
  }

  predicate IsActive(nodes: Nodes, id: NodeId) {
    id in nodes && nodes[id].state.Active?
  }

  function ActiveIds(nodes: Nodes): set<NodeId> {
    set id | id in nodes && nodes[id].state.Active?
  }

  function VoterTarget(active: nat): nat {
    if active < FIXED_VOTER_TARGET then active else FIXED_VOTER_TARGET
  }

  /** Placement weighs exactly the ACTIVE nodes. */
  function ActiveWeights(nodes: Nodes): map<NodeId, nat> {
    map id | id in nodes && nodes[id].state.Active? :: nodes[id].weight
  }

  function ActiveRefusal(nodes: Nodes, id: NodeId): Option<ApplyError> {
    if !ValidNode(id) then Some(InvalidNodeId)
    else if id !in nodes then Some(NodeNotAdmitted)
    else if !nodes[id].state.Active? then Some(NodeNotActive)
    else None
  }

  // ---- Transitions of membership

  function OngoingAdd(c: Cluster, d: Descriptor): bool
    requires c.transition.Some?
  {
    var t := c.transition.value;
    t.kind.Add? && t.nodeId == d.nodeId && t.target == Some(d.weight) && d.nodeId in c.nodes && c.nodes[d.nodeId] == d
  }

  function AddRefusal(c: Cluster, initialized: bool, format: nat, d: Descriptor): Option<ApplyError> {
    if ControlRefusal(initialized, format).Some? then ControlRefusal(initialized, format)
    else if DescriptorRefusal(d).Some? then DescriptorRefusal(d)
    else if !d.state.Joining? then Some(AddedNodeMustBeJoining)
    else if c.transition.Some? then (if OngoingAdd(c, d) then None else Some(TransitionInProgress))
    else if d.nodeId in c.used then Some(NodeIdAlreadyUsed)
    else FirstClash(c.nodes, d, 1)
  }

  function AddStep(c: Cluster, initialized: bool, format: nat, d: Descriptor, index: nat): (Cluster, Outcome) {
    if AddRefusal(c, initialized, format, d).Some? then (c, Err(AddRefusal(c, initialized, format, d).value))
    else if c.transition.Some? then (c, Ok(TransitionBegun(c.transition.value)))
    else
      var t := Transition(Add, d.nodeId, index, Some(d.weight));
      (c.(used := c.used + {d.nodeId}, nodes := c.nodes[d.nodeId := d], transition := Some(t)), Ok(TransitionBegun(t)))
  }

  function RemoveRefusal(c: Cluster, initialized: bool, format: nat, id: NodeId): Option<ApplyError> {
    if ControlRefusal(initialized, format).Some? then ControlRefusal(initialized, format)
    else if !ValidNode(id) then Some(InvalidNodeId)
    else if c.transition.Some? then
      (if c.transition.value.kind.Remove? && c.transition.value.nodeId == id then None else Some(TransitionInProgress))
    else if ActiveRefusal(c.nodes, id).Some? then ActiveRefusal(c.nodes, id)
    else if |ActiveIds(c.nodes)| == 1 then Some(CannotRemoveLastActiveNode)
    else None
  }

  function RemoveStep(c: Cluster, initialized: bool, format: nat, id: NodeId, index: nat): (Cluster, Outcome) {
    if RemoveRefusal(c, initialized, format, id).Some? then (c, Err(RemoveRefusal(c, initialized, format, id).value))
    else if c.transition.Some? then (c, Ok(TransitionBegun(c.transition.value)))
    else
      var t := Transition(Remove, id, index, None);
      (c.(transition := Some(t)), Ok(TransitionBegun(t)))
  }

  function ReweightRefusal(c: Cluster, initialized: bool, format: nat, id: NodeId, weight: nat): Option<ApplyError> {
    if ControlRefusal(initialized, format).Some? then ControlRefusal(initialized, format)
    else if !ValidNode(id) then Some(InvalidNodeId)
    else if weight == 0 then Some(InvalidStorageWeight)
    else if c.transition.Some? then
      (var t := c.transition.value;
       if t.kind.Reweight? && t.nodeId == id && t.target == Some(weight) then None else Some(TransitionInProgress))
    else if ActiveRefusal(c.nodes, id).Some? then ActiveRefusal(c.nodes, id)
    else if c.nodes[id].weight == weight then Some(StorageWeightUnchanged)
    else None
  }

  function ReweightStep(c: Cluster, initialized: bool, format: nat, id: NodeId, weight: nat, index: nat): (Cluster, Outcome) {
    if ReweightRefusal(c, initialized, format, id, weight).Some?
    then (c, Err(ReweightRefusal(c, initialized, format, id, weight).value))
    else if c.transition.Some? then (c, Ok(TransitionBegun(c.transition.value)))
    else
      var t := Transition(Reweight, id, index, Some(weight));
      (c.(transition := Some(t)), Ok(TransitionBegun(t)))
  }

  function FenceRefusal(c: Cluster, started: nat): Option<ApplyError> {
    if c.transition.None? then Some(NoTransition)
    else if c.transition.value.started != started then Some(TransitionFenceMismatch)
    else None
  }

  function CompleteRefusal(c: Cluster, initialized: bool, format: nat, started: nat): Option<ApplyError> {
    if ControlRefusal(initialized, format).Some? then ControlRefusal(initialized, format)
    else if FenceRefusal(c, started).Some? then FenceRefusal(c, started)
    else
      var t := c.transition.value;
      if t.nodeId !in c.nodes || (t.kind.Reweight? && t.target.None?) then Some(TransitionStateMismatch)
      else
        var d := c.nodes[t.nodeId];
        match t.kind
        case Add =>
          if t.target != Some(d.weight) then Some(TransitionStateMismatch)
          else if d.state.Joining? && !(InRange(d.protocol, c.protocolVersion) && InRange(d.storageFormat, c.storageFormat))
          then Some(ActiveNodeLacksCapability)
          else None
        case Remove => if !d.state.Active? || t.target.Some? then Some(TransitionStateMismatch) else None
        case Reweight => if !d.state.Active? then Some(TransitionStateMismatch) else None
  }

  /** An ADD completes in two steps, activation and then release; the other kinds in one. */
  function CompleteStep(c: Cluster, initialized: bool, format: nat, started: nat, at: LogId): (Cluster, Outcome) {
    if CompleteRefusal(c, initialized, format, started).Some?
    then (c, Err(CompleteRefusal(c, initialized, format, started).value))
    else
      var t := c.transition.value;
      var d := c.nodes[t.nodeId];
      match t.kind
      case Add =>
        if d.state.Joining?
        then (c.(nodes := c.nodes[t.nodeId := d.(state := Active, joinCapability := None)], placement := Some(at)),
              Ok(TransitionAdvanced(t)))
        else (c.(transition := None), Ok(TransitionFinished(started)))
      case Remove =>
        (c.(nodes := c.nodes - {t.nodeId}, placement := Some(at), transition := None), Ok(TransitionFinished(started)))
      case Reweight =>
        (c.(nodes := c.nodes[t.nodeId := d.(weight := t.target.value)], placement := Some(at), transition := None),
         Ok(TransitionFinished(started)))
  }

  // ---- Preparation refresh and pin rotation

  function RefreshRefusal(c: Cluster, initialized: bool, r: Command): Option<ApplyError>
    requires r.RefreshJoining?
  {
    if ControlRefusal(initialized, r.format).Some? then ControlRefusal(initialized, r.format)
    else if !ValidNode(r.nodeId) then Some(InvalidNodeId)
    else if r.expectedPin == 0 || r.replacementPin == 0 then Some(InvalidPeerPin)
    else if r.expectedCapability == 0 || r.replacementCapability == 0 then Some(InvalidJoinCapability)
    else if FenceRefusal(c, r.started).Some? then FenceRefusal(c, r.started)
    else if !c.transition.value.kind.Add? || c.transition.value.nodeId != r.nodeId then Some(TransitionStateMismatch)
    else if r.nodeId !in c.nodes then Some(NodeNotAdmitted)
    else
      var d := c.nodes[r.nodeId];
      if !d.state.Joining? || d.overlapPin.Some? then Some(TransitionStateMismatch)
      else if Refreshed(d, r) then None
      else if r.expectedPin == r.replacementPin || r.expectedCapability == r.replacementCapability
      then Some(PreparationUnchanged)
      else if d.currentPin != r.expectedPin || d.joinCapability != Some(r.expectedCapability) then Some(PreparationPairMismatch)
      else if PinTaken(c.nodes, r.nodeId, r.replacementPin) then Some(PeerPinAlreadyUsed)
      else if CapabilityTaken(c.nodes, r.nodeId, r.replacementCapability) then Some(JoinCapabilityAlreadyUsed)
      else None
  }

  /** The replacement is already in place. */
  predicate Refreshed(d: Descriptor, r: Command)
    requires r.RefreshJoining?
  {
    d.currentPin == r.replacementPin && d.joinCapability == Some(r.replacementCapability)
  }

  function RefreshStep(c: Cluster, initialized: bool, r: Command): (Cluster, Outcome)
    requires r.RefreshJoining?
  {
    if RefreshRefusal(c, initialized, r).Some? then (c, Err(RefreshRefusal(c, initialized, r).value))
    else
      var d := c.nodes[r.nodeId].(currentPin := r.replacementPin, joinCapability := Some(r.replacementCapability));
      (c.(nodes := c.nodes[r.nodeId := d]), Ok(PreparationRefreshed(d)))
  }

  function PinRefusal(initialized: bool, format: nat, expected: Digest, other: Digest): Option<ApplyError> {
    if ControlRefusal(initialized, format).Some? then ControlRefusal(initialized, format)
    else if expected == 0 || other == 0 then Some(InvalidPeerPin)
    else None
  }

  function RotationRefusal(c: Cluster, id: NodeId): Option<ApplyError> {
    if c.transition.Some? && c.transition.value.nodeId == id then Some(NodeTransitionInProgress) else None
  }

  function StageRefusal(c: Cluster, initialized: bool, format: nat, id: NodeId, current: Digest, overlap: Digest): Option<ApplyError> {
    if PinRefusal(initialized, format, current, overlap).Some? then PinRefusal(initialized, format, current, overlap)
    else if current == overlap then Some(PeerPinsMustDiffer)
    else if RotationRefusal(c, id).Some? then RotationRefusal(c, id)
    else if PinTaken(c.nodes, id, overlap) then Some(PeerPinAlreadyUsed)
    else if ActiveRefusal(c.nodes, id).Some? then ActiveRefusal(c.nodes, id)
    else if c.nodes[id].currentPin != current then Some(CurrentPinMismatch)
    else if c.nodes[id].overlapPin.Some? && c.nodes[id].overlapPin.value != overlap then Some(OverlapAlreadySet)
    else None
  }

  function StageStep(c: Cluster, initialized: bool, format: nat, id: NodeId, current: Digest, overlap: Digest): (Cluster, Outcome) {
    var refusal := StageRefusal(c, initialized, format, id, current, overlap);
    if refusal.Some? then (c, Err(refusal.value))
    else
      var d := c.nodes[id].(overlapPin := Some(overlap));
      (c.(nodes := c.nodes[id := d]), Ok(PinChanged(d)))
  }

  function PromoteRefusal(c: Cluster, initialized: bool, format: nat, id: NodeId, current: Digest, overlap: Digest): Option<ApplyError> {
    if PinRefusal(initialized, format, current, overlap).Some? then PinRefusal(initialized, format, current, overlap)
    else if RotationRefusal(c, id).Some? then RotationRefusal(c, id)
    else if ActiveRefusal(c.nodes, id).Some? then ActiveRefusal(c.nodes, id)
    else
      var d := c.nodes[id];
      if d.currentPin == overlap && d.overlapPin == Some(current) then None
      else if d.currentPin != current || d.overlapPin != Some(overlap) then Some(PinPairMismatch)
      else None
  }

  /** Promotion swaps the two pins, and repeating it changes nothing. */
  function PromoteStep(c: Cluster, initialized: bool, format: nat, id: NodeId, current: Digest, overlap: Digest): (Cluster, Outcome) {
    var refusal := PromoteRefusal(c, initialized, format, id, current, overlap);
    if refusal.Some? then (c, Err(refusal.value))
    else
      var d := c.nodes[id].(currentPin := overlap, overlapPin := Some(current));
      (c.(nodes := c.nodes[id := d]), Ok(PinChanged(d)))
  }

  function ClearRefusal(c: Cluster, initialized: bool, format: nat, id: NodeId, current: Digest, overlap: Digest): Option<ApplyError> {
    if PinRefusal(initialized, format, current, overlap).Some? then PinRefusal(initialized, format, current, overlap)
    else if RotationRefusal(c, id).Some? then RotationRefusal(c, id)
    else if ActiveRefusal(c.nodes, id).Some? then ActiveRefusal(c.nodes, id)
    else if c.nodes[id].currentPin != current then Some(CurrentPinMismatch)
    else if c.nodes[id].overlapPin.Some? && c.nodes[id].overlapPin.value != overlap then Some(PinPairMismatch)
    else None
  }

  function ClearStep(c: Cluster, initialized: bool, format: nat, id: NodeId, current: Digest, overlap: Digest): (Cluster, Outcome) {
    var refusal := ClearRefusal(c, initialized, format, id, current, overlap);
    if refusal.Some? then (c, Err(refusal.value))
    else
      var d := c.nodes[id].(overlapPin := None);
      (c.(nodes := c.nodes[id := d]), Ok(PinChanged(d)))
  }

  // ---- Write-once bindings

  function BindJwtStep(c: Cluster, initialized: bool, format: nat, fingerprint: Digest): (Cluster, Outcome) {
    if ControlRefusal(initialized, format).Some? then (c, Err(ControlRefusal(initialized, format).value))
    else if fingerprint == 0 then (c, Err(InvalidJwtFingerprint))
    else if c.jwt.Some? && c.jwt.value != fingerprint then (c, Err(JwtConflict))
    else (c.(jwt := Some(fingerprint)), Ok(JwtBound(fingerprint)))
  }

  predicate ValidProfile(p: ErasureProfile) {
    p.dataShards != 0 && p.parityShards != 0 && p.stripeUnit != 0 && p.dataShards + p.parityShards <= 256
  }

  function BindProfileStep(c: Cluster, initialized: bool, format: nat, p: ErasureProfile): (Cluster, Outcome) {
    if ControlRefusal(initialized, format).Some? then (c, Err(ControlRefusal(initialized, format).value))
    else if !ValidProfile(p) then (c, Err(InvalidErasureProfile))
    else if c.profile.Some? && c.profile.value != p then (c, Err(ProfileConflict))
    else (c.(profile := Some(p)), Ok(ProfileBound(p)))
  }

  predicate IsClusterCommand(command: Command) {
    match command
    case NominateExecutor(_) => false
    case Begin(_) => false
    case Commit(_) => false
    case Abort(_) => false
    case FinalizedThrough(_, _, _) => false
    case InitializeCluster(_) => false
    case CompleteBootstrap(_, _, _) => false
    case _ => true
  }

  function ClusterStep(c: Cluster, initialized: bool, command: Command, at: LogId): (Cluster, Outcome)
    requires IsClusterCommand(command)
  {
    match command
    case BeginAddNode(format, d) => AddStep(c, initialized, format, d, at.index)
    case BeginRemoveNode(format, id) => RemoveStep(c, initialized, format, id, at.index)
    case BeginReweightNode(format, id, weight) => ReweightStep(c, initialized, format, id, weight, at.index)
    case CompleteTransition(format, started) => CompleteStep(c, initialized, format, started, at)
    case StagePin(format, id, current, overlap) => StageStep(c, initialized, format, id, current, overlap)
    case PromotePin(format, id, current, overlap) => PromoteStep(c, initialized, format, id, current, overlap)
    case ClearPin(format, id, current, overlap) => ClearStep(c, initialized, format, id, current, overlap)
    case BindJwt(format, fingerprint) => BindJwtStep(c, initialized, format, fingerprint)
    case BindProfile(format, p) => BindProfileStep(c, initialized, format, p)
    case RefreshJoining(_, _, _, _, _, _, _) => RefreshStep(c, initialized, command)
  }

  // ---- The mutable cluster state

  class ClusterController {
    var nodes: Nodes
    const usedNodeIds: UsedNodeIds
    var transition: Option<Transition>
    var jwt: Option<Digest>
    var profile: Option<ErasureProfile>
    var placement: Option<LogId>
    var protocolVersion: nat
    var storageFormat: nat

    ghost predicate Valid()
      reads this, usedNodeIds
    {
      usedNodeIds.Valid() && (forall id :: id in nodes ==> ValidNode(id))
    }

    /** The bitmap stands for the set of identities ever admitted. */
    ghost function View(): Cluster
      requires Valid()
      reads this, usedNodeIds, usedNodeIds.words
    {
      Cluster(nodes, usedNodeIds.Ids(), transition, jwt, profile, placement,
              protocolVersion, storageFormat)
    }

    constructor ()
      ensures Valid() && fresh(usedNodeIds) && fresh(usedNodeIds.words)
      ensures View() == Cluster(map[], {}, None, None, None, None, 1, 1)
    {
      nodes, transition, jwt, profile, placement := map[], None, None, None, None;
      protocolVersion, storageFormat := 1, 1;
      usedNodeIds := new UsedNodeIds();
    }

    method EnsureDescriptorUnique(candidate: Descriptor) returns (e: Option<ApplyError>)
      ensures e == FirstClash(nodes, candidate, 1)
    {
      for id := 1 to MAX_NODE_ID + 1
        invariant FirstClash(nodes, candidate, 1) == FirstClash(nodes, candidate, id)
      {
        if id in nodes && Clash(nodes[id], candidate).Some? {
          return Clash(nodes[id], candidate);
        }
      }
      return None;
    }

    method BeginAdd(initialized: bool, format: nat, d: Descriptor, index: nat) returns (r: Outcome)
      requires Valid()
      modifies this, usedNodeIds.words
      ensures Valid() && (View(), r) == AddStep(old(View()), initialized, format, d, index)
    {
      var refused := ControlRefusal(initialized, format);
      if refused.Some? {
        return Err(refused.value);
      }
      refused := DescriptorRefusal(d);
      if refused.Some? {
        return Err(refused.value);
      }
      if !d.state.Joining? {
        return Err(AddedNodeMustBeJoining);
      }
      if transition.Some? {
        var existing := transition.value;
        if existing.kind.Add? && existing.nodeId == d.nodeId && existing.target == Some(d.weight)
           && d.nodeId in nodes && nodes[d.nodeId] == d {
          return Ok(TransitionBegun(existing));
        }
        return Err(TransitionInProgress);
      }
      if usedNodeIds.Contains(d.nodeId) {
        return Err(NodeIdAlreadyUsed);
      }
      refused := EnsureDescriptorUnique(d);
      if refused.Some? {
        return Err(refused.value);
      }
      var begun := Transition(Add, d.nodeId, index, Some(d.weight));
      usedNodeIds.Insert(d.nodeId);
      nodes := nodes[d.nodeId := d];
      transition := Some(begun);
      return Ok(TransitionBegun(begun));
    }

    method BeginRemove(initialized: bool, format: nat, id: NodeId, index: nat) returns (r: Outcome)
      requires Valid()
      modifies this`transition
      ensures Valid() && (View(), r) == RemoveStep(old(View()), initialized, format, id, index)
    {
      var refused := ControlRefusal(initialized, format);
      if refused.Some? {
        return Err(refused.value);
      }
      if !ValidNode(id) {
        return Err(InvalidNodeId);
      }
      if transition.Some? {
        if transition.value.kind.Remove? && transition.value.nodeId == id {
          return Ok(TransitionBegun(transition.value));
        }
        return Err(TransitionInProgress);
      }
      refused := ActiveRefusal(nodes, id);
      if refused.Some? {
        return Err(refused.value);
      }
      if |ActiveIds(nodes)| == 1 {
        return Err(CannotRemoveLastActiveNode);
      }
      var begun := Transition(Remove, id, index, None);
      transition := Some(begun);
      return Ok(TransitionBegun(begun));
    }

    method BeginReweight(initialized: bool, format: nat, id: NodeId, weight: nat, index: nat) returns (r: Outcome)
      requires Valid()
      modifies this`transition
      ensures Valid() && (View(), r) == ReweightStep(old(View()), initialized, format, id, weight, index)
    {
      var refused := ControlRefusal(initialized, format);
      if refused.Some? {
        return Err(refused.value);
      }
      if !ValidNode(id) {
        return Err(InvalidNodeId);
      }
      if weight == 0 {
        return Err(InvalidStorageWeight);
      }
      if transition.Some? {
        var existing := transition.value;
        if existing.kind.Reweight? && existing.nodeId == id && existing.target == Some(weight) {
          return Ok(TransitionBegun(existing));
        }
        return Err(TransitionInProgress);
      }
      refused := ActiveRefusal(nodes, id);
      if refused.Some? {
        return Err(refused.value);
      }
      if nodes[id].weight == weight {
        return Err(StorageWeightUnchanged);
      }
      var begun := Transition(Reweight, id, index, Some(weight));
      transition := Some(begun);
      return Ok(TransitionBegun(begun));
    }

    method Complete(initialized: bool, format: nat, started: nat, at: LogId) returns (r: Outcome)
      requires Valid()
      modifies this`nodes, this`transition, this`placement
      ensures Valid() && (View(), r) == CompleteStep(old(View()), initialized, format, started, at)
    {
      var refused := ControlRefusal(initialized, format);
      if refused.Some? {
        return Err(refused.value);
      }
      if transition.None? {
        return Err(NoTransition);
      }
      var t := transition.value;
      if t.started != started {
        return Err(TransitionFenceMismatch);
      }
      if t.nodeId !in nodes {
        return Err(TransitionStateMismatch);
      }
      var d := nodes[t.nodeId];
      match t.kind
      case Add =>
        if t.target != Some(d.weight) {
          return Err(TransitionStateMismatch);
        }
        if d.state.Joining? {
          if !InRange(d.protocol, protocolVersion) || !InRange(d.storageFormat, storageFormat) {
            return Err(ActiveNodeLacksCapability);
          }
          nodes := nodes[t.nodeId := d.(state := Active, joinCapability := None)];
          placement := Some(at);
          return Ok(TransitionAdvanced(t));
        }
        transition := None;
        return Ok(TransitionFinished(started));
      case Remove =>
        if !d.state.Active? || t.target.Some? {
          return Err(TransitionStateMismatch);
        }
        nodes := nodes - {t.nodeId};
        placement := Some(at);
        transition := None;
        return Ok(TransitionFinished(started));
      case Reweight =>
        if t.target.None? || !d.state.Active? {
          return Err(TransitionStateMismatch);
        }
        nodes := nodes[t.nodeId := d.(weight := t.target.value)];
        placement := Some(at);
        transition := None;
        return Ok(TransitionFinished(started));
    }

    /** What every pin command checks before it touches the descriptor of a node. */
    method CheckRotation(initialized: bool, format: nat, id: NodeId, current: Digest, overlap: Digest)
      returns (e: Option<ApplyError>)
      requires Valid()
      ensures e == if PinRefusal(initialized, format, current, overlap).Some? then PinRefusal(initialized, format, current, overlap)
                   else RotationRefusal(View(), id)
    {
      var refused := PinRefusal(initialized, format, current, overlap);
      if refused.Some? {
        return refused;
      }
      if transition.Some? && transition.value.nodeId == id {
        return Some(NodeTransitionInProgress);
      }
      return None;
    }

    method PromotePeerPin(initialized: bool, format: nat, id: NodeId, current: Digest, overlap: Digest) returns (r: Outcome)
      requires Valid()
      modifies this`nodes
      ensures Valid() && (View(), r) == PromoteStep(old(View()), initialized, format, id, current, overlap)
    {
      var refused := CheckRotation(initialized, format, id, current, overlap);
      if refused.Some? {
        return Err(refused.value);
      }
      refused := ActiveRefusal(nodes, id);
      if refused.Some? {
        return Err(refused.value);
      }
      var d := nodes[id];
      if d.currentPin == overlap && d.overlapPin == Some(current) {
        assert nodes[id := d] == nodes;
        return Ok(PinChanged(d));
      }
      if d.currentPin != current || d.overlapPin != Some(overlap) {
        return Err(PinPairMismatch);
      }
      d := d.(currentPin := overlap, overlapPin := Some(current));
      nodes := nodes[id := d];
      return Ok(PinChanged(d));
    }

    method StagePeerPin(initialized: bool, format: nat, id: NodeId, current: Digest, overlap: Digest) returns (r: Outcome)
      requires Valid()
      modifies this`nodes
      ensures Valid() && (View(), r) == StageStep(old(View()), initialized, format, id, current, overlap)
    {
      var refused := PinRefusal(initialized, format, current, overlap);
      if refused.Some? {
        return Err(refused.value);
      }
      if current == overlap {
        return Err(PeerPinsMustDiffer);
      }
      refused := CheckRotation(initialized, format, id, current, overlap);
      if refused.Some? {
        return Err(refused.value);
      }
      if PinTaken(nodes, id, overlap) {
        return Err(PeerPinAlreadyUsed);
      }
      refused := ActiveRefusal(nodes, id);
      if refused.Some? {
        return Err(refused.value);
      }
      var d := nodes[id];
      if d.currentPin != current {
        return Err(CurrentPinMismatch);
      }
      if d.overlapPin.Some? && d.overlapPin.value != overlap {
        return Err(OverlapAlreadySet);
      }
      d := d.(overlapPin := Some(overlap));
      nodes := nodes[id := d];
      return Ok(PinChanged(d));
    }

    /**
      A compare-and-swap of the joining node's pin and capability as a pair. Success leaves exactly that node changed,
      and repeating the command changes nothing and answers the same.
     */
    method RefreshJoiningPreparation(initialized: bool, command: Command) returns (r: Outcome)
      requires Valid() && command.RefreshJoining?
      modifies this`nodes
      ensures Valid() && (View(), r) == RefreshStep(old(View()), initialized, command)
      ensures r.Err? ==> nodes == old(nodes)
      ensures r.Ok? ==>
                && command.nodeId in old(nodes) && Refreshed(nodes[command.nodeId], command)
                && nodes == old(nodes)[command.nodeId := nodes[command.nodeId]]
                && nodes[command.nodeId].state.Joining? && nodes[command.nodeId].address == old(nodes)[command.nodeId].address
      ensures r.Ok? && !Refreshed(old(nodes)[command.nodeId], command) ==>
                && old(nodes)[command.nodeId].currentPin == command.expectedPin
                && old(nodes)[command.nodeId].joinCapability == Some(command.expectedCapability)
                && !PinTaken(nodes, command.nodeId, command.replacementPin)
      ensures r.Ok? ==> RefreshStep(View(), initialized, command) == (View(), r)
    {
      var refused := ControlRefusal(initialized, command.format);
      if refused.Some? {
        return Err(refused.value);
      }
      if !ValidNode(command.nodeId) {
        return Err(InvalidNodeId);
      }
      if command.expectedPin == 0 || command.replacementPin == 0 {
        return Err(InvalidPeerPin);
      }
      if command.expectedCapability == 0 || command.replacementCapability == 0 {
        return Err(InvalidJoinCapability);
      }
      if transition.None? {
        return Err(NoTransition);
      }
      if transition.value.started != command.started {
        return Err(TransitionFenceMismatch);
      }
      if !transition.value.kind.Add? || transition.value.nodeId != command.nodeId {
        return Err(TransitionStateMismatch);
      }
      if command.nodeId !in nodes {
        return Err(NodeNotAdmitted);
      }
      var d := nodes[command.nodeId];
      if !d.state.Joining? || d.overlapPin.Some? {
        return Err(TransitionStateMismatch);
      }
      if d.currentPin == command.replacementPin && d.joinCapability == Some(command.replacementCapability) {
        assert nodes[command.nodeId := d] == nodes;
        return Ok(PreparationRefreshed(d));
      }
      if command.expectedPin == command.replacementPin || command.expectedCapability == command.replacementCapability {
        return Err(PreparationUnchanged);
      }
      if d.currentPin != command.expectedPin || d.joinCapability != Some(command.expectedCapability) {
        return Err(PreparationPairMismatch);
      }
      if PinTaken(nodes, command.nodeId, command.replacementPin) {
        return Err(PeerPinAlreadyUsed);
      }
      if CapabilityTaken(nodes, command.nodeId, command.replacementCapability) {
        return Err(JoinCapabilityAlreadyUsed);
      }
      d := d.(currentPin := command.replacementPin, joinCapability := Some(command.replacementCapability));
      nodes := nodes[command.nodeId := d];
      assert nodes[command.nodeId := d] == nodes;
      return Ok(PreparationRefreshed(d));
    }

    method ClearPeerPin(initialized: bool, format: nat, id: NodeId, current: Digest, overlap: Digest) returns (r: Outcome)
      requires Valid()
      modifies this`nodes
      ensures Valid() && (View(), r) == ClearStep(old(View()), initialized, format, id, current, overlap)
    {
      var refused := CheckRotation(initialized, format, id, current, overlap);
      if refused.Some? {
        return Err(refused.value);
      }
      refused := ActiveRefusal(nodes, id);
      if refused.Some? {
        return Err(refused.value);
      }
      var d := nodes[id];
      if d.currentPin != current {
        return Err(CurrentPinMismatch);
      }
      if d.overlapPin.None? {
        assert nodes[id := d] == nodes;
        return Ok(PinChanged(d));
      }
      if d.overlapPin.value != overlap {
        return Err(PinPairMismatch);
      }
      d := d.(overlapPin := None);
      nodes := nodes[id := d];
      return Ok(PinChanged(d));
    }

    method BindJwt(initialized: bool, format: nat, fingerprint: Digest) returns (r: Outcome)
      requires Valid()
      modifies this`jwt
      ensures Valid() && (View(), r) == BindJwtStep(old(View()), initialized, format, fingerprint)
    {
      var refused := ControlRefusal(initialized, format);
      if refused.Some? {
        return Err(refused.value);
      }
      if fingerprint == 0 {
        return Err(InvalidJwtFingerprint);
      }
      if jwt.Some? && jwt.value != fingerprint {
        return Err(JwtConflict);
      }
      jwt := Some(fingerprint);
      return Ok(JwtBound(fingerprint));
    }

    method BindProfile(initialized: bool, format: nat, p: ErasureProfile) returns (r: Outcome)
      requires Valid()
      modifies this`profile
      ensures Valid() && (View(), r) == BindProfileStep(old(View()), initialized, format, p)
    {
      var refused := ControlRefusal(initialized, format);
      if refused.Some? {
        return Err(refused.value);
      }
      if !ValidProfile(p) {
        return Err(InvalidErasureProfile);
      }
      if profile.Some? && profile.value != p {
        return Err(ProfileConflict);
      }
      profile := Some(p);
      return Ok(ProfileBound(p));
    }

    method ApplyCluster(initialized: bool, command: Command, at: LogId) returns (r: Outcome)
      requires Valid() && IsClusterCommand(command)
      modifies this, usedNodeIds.words
      ensures Valid() && (View(), r) == ClusterStep(old(View()), initialized, command, at)
    {
      match command
      case BeginAddNode(format, d) => r := BeginAdd(initialized, format, d, at.index);
      case BeginRemoveNode(format, id) => r := BeginRemove(initialized, format, id, at.index);
      case BeginReweightNode(format, id, weight) => r := BeginReweight(initialized, format, id, weight, at.index);
      case CompleteTransition(format, started) => r := Complete(initialized, format, started, at);
      case StagePin(format, id, current, overlap) => r := StagePeerPin(initialized, format, id, current, overlap);
      case PromotePin(format, id, current, overlap) => r := PromotePeerPin(initialized, format, id, current, overlap);
      case ClearPin(format, id, current, overlap) => r := ClearPeerPin(initialized, format, id, current, overlap);
      case BindJwt(format, fingerprint) => r := BindJwt(initialized, format, fingerprint);
      case BindProfile(format, p) => r := BindProfile(initialized, format, p);
      case RefreshJoining(_, _, _, _, _, _, _) => r := RefreshJoiningPreparation(initialized, command);
    }
  }

  // ---- What every command keeps; `n` is the index of the next log entry

  predicate NodeOk(id: NodeId, d: Descriptor) {
    && ValidNode(id) && d.nodeId == id && d.weight > 0
    && d.currentPin != 0 && d.overlapPin != Some(0) && d.overlapPin != Some(d.currentPin)
    && (if d.state.Joining? then d.overlapPin.None? && d.joinCapability.Some? else d.joinCapability.None?)
  }

  predicate HasPin(d: Descriptor, pin: Digest) {
    d.currentPin == pin || d.overlapPin == Some(pin)
  }

  /** Two nodes share no address, and no current or overlap pin. */
  predicate Apart(d: Descriptor, e: Descriptor) {
    d.address != e.address && !HasPin(e, d.currentPin) && (d.overlapPin.Some? ==> !HasPin(e, d.overlapPin.value))
  }

  predicate NodesOk(nodes: Nodes) {
    && (forall id :: id in nodes ==> NodeOk(id, nodes[id]))
    && (forall i, j :: i in nodes && j in nodes && i != j ==> Apart(nodes[i], nodes[j]))
  }

  predicate UsedOk(c: Cluster) {
    c.nodes.Keys <= c.used && forall id :: id in c.used ==> ValidNode(id)
  }

  /** A JOINING node is the one being added. */
  predicate JoiningOk(c: Cluster) {
    forall id :: id in c.nodes && c.nodes[id].state.Joining? ==>
      c.transition.Some? && c.transition.value.kind.Add? && c.transition.value.nodeId == id
  }

  predicate TransitionOk(c: Cluster, n: nat) {
    c.transition.Some? ==>
      var t := c.transition.value;
      && t.started < n && t.nodeId in c.nodes
      && match t.kind
         case Add => t.target == Some(c.nodes[t.nodeId].weight)
         case Remove => IsActive(c.nodes, t.nodeId) && t.target.None? && |ActiveIds(c.nodes)| >= 2
         case Reweight =>
           IsActive(c.nodes, t.nodeId) && t.target.Some? && t.target.value > 0 && t.target.value != c.nodes[t.nodeId].weight
  }

  /** A placement fence exists from the first activation on, and from then on an ACTIVE node remains. */
  predicate PlacementOk(c: Cluster, n: nat) {
    && (c.placement.Some? <==> ActiveIds(c.nodes) != {})
    && (c.placement.Some? ==> c.placement.value.index < n)
  }

  predicate ClusterInv(c: Cluster, n: nat) {
    NodesOk(c.nodes) && UsedOk(c) && JoiningOk(c) && TransitionOk(c, n) && PlacementOk(c, n)
  }

  /** One step keeps the invariant, moves the fence exactly when the ACTIVE weights change, and frees no identity. */
  predicate Kept(c: Cluster, c': Cluster, n: nat) {
    && ClusterInv(c', n + 1)
    && (ActiveWeights(c'.nodes) != ActiveWeights(c.nodes) <==> c'.placement != c.placement)
    && c.used <= c'.used && (c.placement.Some? ==> c'.placement.Some?)
  }

  lemma EmptyClusterInv()
    ensures ClusterInv(Cluster(map[], {}, None, None, None, None, 1, 1), 0)
  {
  }

  lemma {:induction false} NoClash(nodes: Nodes, candidate: Descriptor, id: nat, other: NodeId)
    requires FirstClash(nodes, candidate, id).None? && id <= other <= MAX_NODE_ID && other in nodes
    ensures Clash(nodes[other], candidate).None?
    decreases MAX_NODE_ID + 1 - id
  {
    if id < other {
      NoClash(nodes, candidate, id + 1, other);
    }
  }

  lemma AddKeepsNodes(nodes: Nodes, d: Descriptor)
    requires NodesOk(nodes) && FirstClash(nodes, d, 1).None? && DescriptorRefusal(d).None? && d.state.Joining?
    requires d.nodeId !in nodes
    ensures NodesOk(nodes[d.nodeId := d])
  {
    forall other | other in nodes
      ensures Apart(nodes[other], d) && Apart(d, nodes[other])
    {
      assert NodeOk(other, nodes[other]);
      NoClash(nodes, d, 1, other);
    }
  }

  lemma JoiningIsNotActive(nodes: Nodes, d: Descriptor)
    requires d.nodeId !in nodes && d.state.Joining?
    ensures ActiveIds(nodes[d.nodeId := d]) == ActiveIds(nodes)
    ensures ActiveWeights(nodes[d.nodeId := d]) == ActiveWeights(nodes)
  {
  }

  lemma AddedNodeIsUsed(c: Cluster, c': Cluster, d: Descriptor)
    requires UsedOk(c) && ValidNode(d.nodeId)
    requires c'.nodes == c.nodes[d.nodeId := d] && c'.used == c.used + {d.nodeId}
    ensures UsedOk(c')
  {
  }

  lemma AddedNodeIsJoining(c: Cluster, c': Cluster, d: Descriptor, n: nat)
    requires JoiningOk(c) && c.transition.None?
    requires c'.nodes == c.nodes[d.nodeId := d] && c'.transition == Some(Transition(Add, d.nodeId, n, Some(d.weight)))
    ensures JoiningOk(c') && TransitionOk(c', n + 1)
  {
  }

  lemma AddedNodeKeepsInv(c: Cluster, d: Descriptor, n: nat)
    requires ClusterInv(c, n) && NodesOk(c.nodes[d.nodeId := d]) && ValidNode(d.nodeId)
    requires d.nodeId !in c.nodes && d.state.Joining? && c.transition.None?
    ensures ClusterInv(c.(used := c.used + {d.nodeId}, nodes := c.nodes[d.nodeId := d],
                          transition := Some(Transition(Add, d.nodeId, n, Some(d.weight)))), n + 1)
    ensures ActiveWeights(c.nodes[d.nodeId := d]) == ActiveWeights(c.nodes)
  {
    JoiningIsNotActive(c.nodes, d);
    var c' := c.(used := c.used + {d.nodeId}, nodes := c.nodes[d.nodeId := d],
                 transition := Some(Transition(Add, d.nodeId, n, Some(d.weight))));
    AddedNodeIsUsed(c, c', d);
    AddedNodeIsJoining(c, c', d, n);
    assert PlacementOk(c', n + 1);
  }

  lemma AddKeepsInv(c: Cluster, initialized: bool, format: nat, d: Descriptor, n: nat)
    requires ClusterInv(c, n)
    ensures Kept(c, AddStep(c, initialized, format, d, n).0, n)
  {
    if AddRefusal(c, initialized, format, d).None? && c.transition.None? {
      AddKeepsNodes(c.nodes, d);
      AddedNodeKeepsInv(c, d, n);
    } else {
      assert AddStep(c, initialized, format, d, n).0 == c;
      UnchangedIsKept(c, c, n);
    }
  }

  /** Steps that leave nodes, used identities and the fence alone, and keep the transition justified. */
  lemma UnchangedIsKept(c: Cluster, c': Cluster, n: nat)
    requires ClusterInv(c, n) && c'.nodes == c.nodes && c'.used == c.used && c'.placement == c.placement
    requires c'.transition == c.transition || (c.transition.None? && TransitionOk(c', n + 1))
    ensures Kept(c, c', n)
  {
  }

  lemma BeginKeepsInv(c: Cluster, initialized: bool, format: nat, id: NodeId, weight: nat, n: nat)
    requires ClusterInv(c, n)
    ensures Kept(c, RemoveStep(c, initialized, format, id, n).0, n)
    ensures Kept(c, ReweightStep(c, initialized, format, id, weight, n).0, n)
  {
    if IsActive(c.nodes, id) {
      assert id in ActiveIds(c.nodes);
      assert |ActiveIds(c.nodes)| != 1 ==> |ActiveIds(c.nodes)| >= 2;
    }
    UnchangedIsKept(c, RemoveStep(c, initialized, format, id, n).0, n);
    UnchangedIsKept(c, ReweightStep(c, initialized, format, id, weight, n).0, n);
  }

  /** A descriptor may be replaced by one that differs in pins, state or weight, if it stays apart from the others. */
  lemma ReplaceKeepsNodes(nodes: Nodes, id: NodeId, d: Descriptor)
    requires NodesOk(nodes) && id in nodes && NodeOk(id, d) && d.address == nodes[id].address
    requires !PinTaken(nodes, id, d.currentPin) && (d.overlapPin.Some? ==> !PinTaken(nodes, id, d.overlapPin.value))
    ensures NodesOk(nodes[id := d])
  {
    forall other | other in nodes && other != id
      ensures Apart(nodes[other], d) && Apart(d, nodes[other])
    {
      assert Apart(nodes[id], nodes[other]);
    }
  }

  lemma OwnPinsAreFree(nodes: Nodes, id: NodeId)
    requires NodesOk(nodes) && id in nodes
    ensures !PinTaken(nodes, id, nodes[id].currentPin)
    ensures nodes[id].overlapPin.Some? ==> !PinTaken(nodes, id, nodes[id].overlapPin.value)
  {
    forall other | other in nodes && other != id
      ensures !HasPin(nodes[other], nodes[id].currentPin)
      ensures nodes[id].overlapPin.Some? ==> !HasPin(nodes[other], nodes[id].overlapPin.value)
    {
      assert Apart(nodes[id], nodes[other]);
    }
  }

  lemma ActiveSame(nodes: Nodes, id: NodeId, d: Descriptor)
    requires id in nodes && d.state == nodes[id].state && d.weight == nodes[id].weight
    ensures ActiveIds(nodes[id := d]) == ActiveIds(nodes)
    ensures ActiveWeights(nodes[id := d]) == ActiveWeights(nodes)
  {
  }

  /** Changing only pins of a node, or the capability of a joining one, keeps the rest. */
  lemma PinChangeKeepsInv(c: Cluster, id: NodeId, d: Descriptor, n: nat)
    requires ClusterInv(c, n) && id in c.nodes && NodesOk(c.nodes[id := d])
    requires d.state == c.nodes[id].state && d.weight == c.nodes[id].weight
    ensures Kept(c, c.(nodes := c.nodes[id := d]), n)
  {
    var c' := c.(nodes := c.nodes[id := d]);
    ActiveSame(c.nodes, id, d);
    assert UsedOk(c') && JoiningOk(c') && PlacementOk(c', n + 1);
    assert TransitionOk(c', n + 1);
  }

  lemma StageKeepsInv(c: Cluster, initialized: bool, format: nat, id: NodeId, current: Digest, overlap: Digest, n: nat)
    requires ClusterInv(c, n)
    ensures Kept(c, StageStep(c, initialized, format, id, current, overlap).0, n)
  {
    if StageRefusal(c, initialized, format, id, current, overlap).None? {
      var d := c.nodes[id].(overlapPin := Some(overlap));
      assert NodeOk(id, c.nodes[id]);
      OwnPinsAreFree(c.nodes, id);
      ReplaceKeepsNodes(c.nodes, id, d);
      PinChangeKeepsInv(c, id, d, n);
    }
  }

  lemma PromoteKeepsInv(c: Cluster, initialized: bool, format: nat, id: NodeId, current: Digest, overlap: Digest, n: nat)
    requires ClusterInv(c, n)
    ensures Kept(c, PromoteStep(c, initialized, format, id, current, overlap).0, n)
  {
    if PromoteRefusal(c, initialized, format, id, current, overlap).None? {
      var d := c.nodes[id].(currentPin := overlap, overlapPin := Some(current));
      assert NodeOk(id, c.nodes[id]);
      OwnPinsAreFree(c.nodes, id);
      ReplaceKeepsNodes(c.nodes, id, d);
      PinChangeKeepsInv(c, id, d, n);
    }
  }

  lemma ClearKeepsInv(c: Cluster, initialized: bool, format: nat, id: NodeId, current: Digest, overlap: Digest, n: nat)
    requires ClusterInv(c, n)
    ensures Kept(c, ClearStep(c, initialized, format, id, current, overlap).0, n)
  {
    if ClearRefusal(c, initialized, format, id, current, overlap).None? {
      var d := c.nodes[id].(overlapPin := None);
      assert NodeOk(id, c.nodes[id]);
      OwnPinsAreFree(c.nodes, id);
      ReplaceKeepsNodes(c.nodes, id, d);
      PinChangeKeepsInv(c, id, d, n);
    }
  }

  lemma RefreshKeepsInv(c: Cluster, initialized: bool, r: Command, n: nat)
    requires ClusterInv(c, n) && r.RefreshJoining?
    ensures Kept(c, RefreshStep(c, initialized, r).0, n)
  {
    if RefreshRefusal(c, initialized, r).None? {
      OwnPinsAreFree(c.nodes, r.nodeId);
      var d := c.nodes[r.nodeId].(currentPin := r.replacementPin, joinCapability := Some(r.replacementCapability));
      assert NodeOk(r.nodeId, c.nodes[r.nodeId]);
      ReplaceKeepsNodes(c.nodes, r.nodeId, d);
      PinChangeKeepsInv(c, r.nodeId, d, n);
    }
  }

  lemma ActivationIsKept(c: Cluster, at: LogId)
    requires ClusterInv(c, at.index) && c.transition.Some? && c.transition.value.kind.Add?
    requires c.nodes[c.transition.value.nodeId].state.Joining?
    ensures var t := c.transition.value;
            var d := c.nodes[t.nodeId].(state := Active, joinCapability := None);
            Kept(c, c.(nodes := c.nodes[t.nodeId := d], placement := Some(at)), at.index)
  {
    var id := c.transition.value.nodeId;
    var d := c.nodes[id].(state := Active, joinCapability := None);
    var c' := c.(nodes := c.nodes[id := d], placement := Some(at));
    OwnPinsAreFree(c.nodes, id);
    assert NodeOk(id, c.nodes[id]);
    ReplaceKeepsNodes(c.nodes, id, d);
    assert id in ActiveIds(c'.nodes) && id in ActiveWeights(c'.nodes) && id !in ActiveWeights(c.nodes);
    assert JoiningOk(c') && TransitionOk(c', at.index + 1);
  }

  lemma RemovalIsKept(c: Cluster, at: LogId)
    requires ClusterInv(c, at.index) && c.transition.Some? && c.transition.value.kind.Remove?
    ensures Kept(c, c.(nodes := c.nodes - {c.transition.value.nodeId}, placement := Some(at), transition := None), at.index)
  {
    var id := c.transition.value.nodeId;
    var c' := c.(nodes := c.nodes - {id}, placement := Some(at), transition := None);
    assert ActiveIds(c'.nodes) == ActiveIds(c.nodes) - {id};
    assert id in ActiveIds(c.nodes) && |ActiveIds(c'.nodes)| >= 1;
    assert id !in ActiveWeights(c'.nodes) && id in ActiveWeights(c.nodes);
    assert NodesOk(c'.nodes) && JoiningOk(c');
  }

  lemma ReweightIsKept(c: Cluster, at: LogId)
    requires ClusterInv(c, at.index) && c.transition.Some? && c.transition.value.kind.Reweight?
    ensures var t := c.transition.value;
            var d := c.nodes[t.nodeId].(weight := t.target.value);
            Kept(c, c.(nodes := c.nodes[t.nodeId := d], placement := Some(at), transition := None), at.index)
  {
    var t := c.transition.value;
    var (id, d) := (t.nodeId, c.nodes[t.nodeId].(weight := t.target.value));
    var c' := c.(nodes := c.nodes[id := d], placement := Some(at), transition := None);
    OwnPinsAreFree(c.nodes, id);
    assert NodeOk(id, c.nodes[id]);
    ReplaceKeepsNodes(c.nodes, id, d);
    ActiveReweighted(c.nodes, id, d);
    assert UsedOk(c') && JoiningOk(c') && PlacementOk(c', at.index + 1);
  }

  lemma ActiveReweighted(nodes: Nodes, id: NodeId, d: Descriptor)
    requires IsActive(nodes, id) && d.state.Active? && d.weight != nodes[id].weight
    ensures ActiveIds(nodes[id := d]) == ActiveIds(nodes)
    ensures ActiveWeights(nodes[id := d]) != ActiveWeights(nodes)
  {
    assert ActiveWeights(nodes[id := d])[id] != ActiveWeights(nodes)[id];
  }

  lemma CompleteKeepsInv(c: Cluster, initialized: bool, format: nat, started: nat, at: LogId)
    requires ClusterInv(c, at.index)
    ensures Kept(c, CompleteStep(c, initialized, format, started, at).0, at.index)
  {
    if CompleteRefusal(c, initialized, format, started).None? {
      match c.transition.value.kind
      case Add =>
        if c.nodes[c.transition.value.nodeId].state.Joining? {
          ActivationIsKept(c, at);
        } else {
          assert JoiningOk(c.(transition := None));
        }
      case Remove => RemovalIsKept(c, at);
      case Reweight => ReweightIsKept(c, at);
    }
  }

  /** Every command keeps the invariant; the placement fence moves exactly when the ACTIVE weights change. */
  lemma ClusterStepKeepsInv(c: Cluster, initialized: bool, command: Command, at: LogId)
    requires IsClusterCommand(command) && ClusterInv(c, at.index)
    ensures Kept(c, ClusterStep(c, initialized, command, at).0, at.index)
  {
    var n := at.index;
    match command
    case BeginAddNode(format, d) => AddKeepsInv(c, initialized, format, d, n);
    case BeginRemoveNode(format, id) => BeginKeepsInv(c, initialized, format, id, 0, n);
    case BeginReweightNode(format, id, weight) => BeginKeepsInv(c, initialized, format, id, weight, n);
    case CompleteTransition(format, started) => CompleteKeepsInv(c, initialized, format, started, at);
    case StagePin(format, id, current, overlap) => StageKeepsInv(c, initialized, format, id, current, overlap, n);
    case PromotePin(format, id, current, overlap) => PromoteKeepsInv(c, initialized, format, id, current, overlap, n);
    case ClearPin(format, id, current, overlap) => ClearKeepsInv(c, initialized, format, id, current, overlap, n);
    case RefreshJoining(_, _, _, _, _, _, _) => RefreshKeepsInv(c, initialized, command, n);
    case BindJwt(format, fingerprint) => UnchangedIsKept(c, BindJwtStep(c, initialized, format, fingerprint).0, n);
    case BindProfile(format, p) => UnchangedIsKept(c, BindProfileStep(c, initialized, format, p).0, n);
  }

}
