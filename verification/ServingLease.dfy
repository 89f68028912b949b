/** Raft log positions, shared by the lease and the consensus models. */
module LogIds {
  datatype LogId = LogId(term: nat, index: nat)
}

/**
  Serving leases: the recipient's lease state, the issuer's cutover guard and
  the grant formed from a leader quorum proof. Times are nanoseconds read from
  one process's own boot clock.
 */
module ServingLease {
  import opened Prelude
  import opened LogIds

  const SECOND: int := 1_000_000_000
  const MAX_LIFETIME: int := 2 * SECOND
  const CUTOVER_WAIT: int := 3 * SECOND
  const PROOF_MAX_AGE: int := 500_000_000
  /** The largest `Duration`: 2^64 - 1 whole seconds and 999,999,999 nanoseconds. */
  const MAX_INSTANT: int := 0x1_0000_0000_0000_0000 * SECOND - 1

  type ClusterId = nat

  datatype Request = Request(cluster: ClusterId, placement: LogId)
  datatype Pending = Pending(request: Request, requestedAt: int)
  datatype Grant = Grant(cluster: ClusterId, term: nat, placement: LogId, lifetime: int)
  datatype Lease = Lease(cluster: ClusterId, term: nat, placement: LogId, expiresAt: int)
  datatype Identity = Identity(cluster: ClusterId, term: nat, placement: LogId)
  datatype Observation = Observation(identity: Identity, readyAt: int)
  datatype Holder = Holder(cluster: ClusterId, placement: LogId, highestTerm: nat, current: Option<Lease>)

  datatype LeaseError =
    | ClusterMismatch | ActivePlacementMismatch | GrantLifetimeTooLong | RaftTermRegressed
    | LeaderQuorumProofStale | GrantArrivedAfterExpiry | RequestSuperseded | CutoverInProgress
    | ClockRangeExceeded

  function ValidateRequest(received: Request, expected: Request): Option<LeaseError> {
    if received.cluster != expected.cluster then Some(ClusterMismatch)
    else if received.placement != expected.placement then Some(ActivePlacementMismatch)
    else None
  }

  // ---- Recipient

  /** A holder never keeps a lease of another cluster, placement or term. */
  predicate HolderOk(h: Holder) {
    h.current.Some? ==>
      h.current.value.cluster == h.cluster
      && h.current.value.placement == h.placement
      && h.current.value.term == h.highestTerm
  }

  function SetPlacement(h: Holder, placement: LogId): Holder {
    if h.placement == placement then h
    else h.(placement := placement,
            highestTerm := if h.highestTerm < placement.term then placement.term else h.highestTerm,
            current := None)
  }

  /** Why a response is refused before the recipient's state is touched. */
  function Refusal(h: Holder, p: Pending, g: Grant): Option<LeaseError> {
    var expected := Request(h.cluster, h.placement);
    if p.request != expected then Some(RequestSuperseded)
    else if ValidateRequest(Request(g.cluster, g.placement), expected).Some?
    then ValidateRequest(Request(g.cluster, g.placement), expected)
    else if g.lifetime > MAX_LIFETIME then Some(GrantLifetimeTooLong)
    else if g.term < h.highestTerm then Some(RaftTermRegressed)
    else None
  }

  /** The recipient after a response: a newer term drops the old lease even when the grant is late. */
  function Accept(h: Holder, p: Pending, g: Grant, now: int): (Holder, Result<Lease, LeaseError>) {
    if Refusal(h, p, g).Some? then (h, Err(Refusal(h, p, g).value))
    else
      var kept := if h.highestTerm == g.term then h.current else None;
      var expiresAt := p.requestedAt + g.lifetime;
      if expiresAt > MAX_INSTANT || now >= expiresAt
      then (h.(highestTerm := g.term, current := kept), Err(GrantArrivedAfterExpiry))
      else
        var candidate := Lease(g.cluster, g.term, g.placement, expiresAt);
        var accepted := if kept.Some? && kept.value.expiresAt >= expiresAt then kept.value else candidate;
        (h.(highestTerm := g.term, current := Some(accepted)), Ok(accepted))
  }

  predicate Valid(h: Holder, now: int) {
    && h.current.Some?
    && h.current.value.cluster == h.cluster
    && h.current.value.placement == h.placement
    && now < h.current.value.expiresAt
  }

  class ServingLeaseState {
    const clusterId: ClusterId
    var activePlacement: LogId
    var highestRaftTerm: nat
    var current: Option<Lease>

    ghost function View(): Holder
      reads this
    {
      Holder(clusterId, activePlacement, highestRaftTerm, current)
    }

    ghost predicate Consistent()
      reads this
    {
      HolderOk(View())
    }

    constructor (cluster: ClusterId, placement: LogId)
      ensures Consistent() && View() == Holder(cluster, placement, placement.term, None)
    {
      clusterId, activePlacement, highestRaftTerm, current := cluster, placement, placement.term, None;
    }

    method BeginRequest(now: int) returns (p: Pending)
      ensures p.requestedAt == now && Refusal(View(), p, Grant(clusterId, highestRaftTerm, activePlacement, 0)).None?
    {
      p := Pending(Request(clusterId, activePlacement), now);
    }

    method SetActivePlacement(placement: LogId)
      requires Consistent()
      modifies this
      ensures Consistent() && View() == SetPlacement(old(View()), placement)
      ensures highestRaftTerm >= old(highestRaftTerm)
    {
      if activePlacement != placement {
        activePlacement := placement;
        if highestRaftTerm < placement.term {
          highestRaftTerm := placement.term;
        }
        current := None;
      }
    }

    /** An accepted lease never outlives the request by more than the fixed maximum, and terms never regress. */
    method AcceptGrant(p: Pending, g: Grant, now: int) returns (r: Result<Lease, LeaseError>)
      requires Consistent()
      modifies this
      ensures Consistent()
      ensures (View(), r) == Accept(old(View()), p, g, now)
      ensures highestRaftTerm >= old(highestRaftTerm)
      ensures r.Ok? ==> current == Some(r.value) && now < r.value.expiresAt && r.value.term == g.term
      ensures r.Ok? && Some(r.value) != old(current) ==> r.value.expiresAt <= p.requestedAt + MAX_LIFETIME
      ensures old(current).Some? && current.Some? && current.value.term == old(current).value.term
              ==> current.value.expiresAt >= old(current).value.expiresAt
    {
      var expected := Request(clusterId, activePlacement);
      if p.request != expected {
        return Err(RequestSuperseded);
      }
      var mismatch := ValidateRequest(Request(g.cluster, g.placement), expected);
      if mismatch.Some? {
        return Err(mismatch.value);
      }
      if g.lifetime > MAX_LIFETIME {
        return Err(GrantLifetimeTooLong);
      }
      if g.term < highestRaftTerm {
        return Err(RaftTermRegressed);
      }
      if highestRaftTerm != g.term {
        highestRaftTerm := g.term;
        current := None;
      }
      var expiresAt := p.requestedAt + g.lifetime;
      if expiresAt > MAX_INSTANT || now >= expiresAt {
        return Err(GrantArrivedAfterExpiry);
      }
      var accepted := Lease(g.cluster, g.term, g.placement, expiresAt);
      if current.Some? && current.value.expiresAt >= expiresAt {
        accepted := current.value;
      }
      current := Some(accepted);
      return Ok(accepted);
    }
  }

  // ---- Issuer

  /** The cutover guard: an identity is permitted only once it has been observed for the whole wait. */
  function Permits(observed: Option<Observation>, identity: Identity, now: int)
    : (Option<Observation>, Result<bool, LeaseError>)
  {
    if observed.Some? && observed.value.identity == identity then (observed, Ok(now >= observed.value.readyAt))
    else if now + CUTOVER_WAIT > MAX_INSTANT then (observed, Err(ClockRangeExceeded))
    else (Some(Observation(identity, now + CUTOVER_WAIT)), Ok(false))
  }

  class ServingLeaseCutover {
    var observed: Option<Observation>

    constructor ()
      ensures observed == None
    {
      observed := None;
    }

    method PermitsIdentity(identity: Identity, now: int) returns (r: Result<bool, LeaseError>)
      modifies this
      ensures (observed, r) == Permits(old(observed), identity, now)
      ensures r == Ok(true) ==> old(observed) == observed && observed.Some? && observed.value.identity == identity
    {
      if observed.Some? && observed.value.identity == identity {
        return Ok(now >= observed.value.readyAt);
      }
      if now + CUTOVER_WAIT > MAX_INSTANT {
        return Err(ClockRangeExceeded);
      }
      observed := Some(Observation(identity, now + CUTOVER_WAIT));
      return Ok(false);
    }
  }

  /** A proof taken in the future of the clock, or longer ago than the window, is not fresh. */
  predicate Fresh(confirmedAt: int, now: int) {
    0 <= now - confirmedAt <= PROOF_MAX_AGE
  }

  function GrantFromProof(term: nat, confirmedAt: int, cluster: ClusterId, placement: LogId, now: int)
    : Result<Grant, LeaseError>
  {
    if Fresh(confirmedAt, now) then Ok(Grant(cluster, term, placement, MAX_LIFETIME))
    else Err(LeaderQuorumProofStale)
  }
}
