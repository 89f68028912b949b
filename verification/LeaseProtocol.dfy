/**
  The serving-lease protocol as a timed transition system: any number of
  leader processes and recipients, each with its own drifting boot clock, any
  number of grants being formed at once, and messages delayed without bound.

  What the environment is trusted for is written into `Enabled`: clock rates
  stay within one eleventh of real time, a response is paired with its request,
  a term has one leader process and that process one issuer, and a quorum
  confirmation of a term that started at some instant finds no leader of a
  later term elected before that instant.
 */
module LeaseProtocol {
  import opened Prelude
  import opened LogIds
  import opened ServingLease

  /** A clock reading with the real instant at which it was taken; the code sees only `local`. */
  datatype Stamp = Stamp(local: int, instant: int)

  datatype Proof = Proof(term: nat, at: Stamp)
  datatype Call = Call(node: nat, request: Request, at: Stamp)

  /** A grant that left its issuer, with the instants that justified it. */
  datatype Issued = Issued(
    call: Call, grant: Grant, issuer: nat, proof: Proof, readAt: int, since: Stamp, permittedAt: int)

  /** One execution of `grant`; while it exists it holds the issuer's read fence. */
  datatype Task =
    | Fenced(issuer: nat, call: Call)
    | Proved(issuer: nat, call: Call, proof: Proof)
    | Read(issuer: nat, call: Call, proof: Proof, placement: LogId, readAt: int)
    | Formed(issuer: nat, call: Call, proof: Proof, placement: LogId, readAt: int, grant: Grant)
    | Timed(issuer: nat, call: Call, proof: Proof, placement: LogId, readAt: int, grant: Grant, at: Stamp)

  datatype Leader = Leader(
    applied: Option<LogId>, appliedAt: map<LogId, int>,
    confirming: Option<Stamp>, cached: Option<Proof>,
    observed: Option<Observation>, since: Stamp,
    paused: Option<Stamp>)

  /** A recipient and the response its current lease came from. */
  datatype Held = Held(holder: Holder, origin: Option<Issued>)

  datatype World = World(
    cluster: ClusterId, now: int, clock: map<nat, int>,
    electedAt: map<nat, int>, leaderOf: map<nat, nat>, leaders: map<nat, Leader>)

  datatype System = System(
    w: World, held: map<nat, Held>, calls: set<Call>, tasks: map<nat, Task>, issued: set<Issued>)

  datatype Action =
    | Tick(elapsed: nat, clock: map<nat, int>)
    | Elect(term: nat, issuer: nat)
    | ApplyPlacement(issuer: nat, placement: LogId)
    | StartConfirm(issuer: nat)
    | FinishConfirm(issuer: nat, term: nat)
    | AbandonConfirm(issuer: nat)
    | SendCall(node: nat)
    | StartGrant(task: nat, issuer: nat, call: Call)
    | TakeProof(task: nat)
    | ReadState(task: nat)
    | FormGrant(task: nat)
    | ReadClock(task: nat)
    | Permit(task: nat)
    | FailGrant(task: nat)
    | Deliver(response: Issued)
    | AdoptPlacement(node: nat, placement: LogId)
    | Pause(issuer: nat)
    | Unpause(issuer: nat)

  // ---- Transitions

  /** Boot clocks advance at between 10/11 and 12/11 of real time. */
  predicate Drift(realElapsed: int, localElapsed: int) {
    10 * realElapsed <= 11 * localElapsed <= 12 * realElapsed
  }

  function StampAt(w: World, participant: nat): Stamp
    requires participant in w.clock
  {
    Stamp(w.clock[participant], w.now)
  }

  /** No leader of a later term was elected before the confirmation started. */
  predicate NoLaterLeaderBefore(w: World, term: nat, instant: int) {
    forall later :: later in w.electedAt && term < later ==> instant <= w.electedAt[later]
  }

  predicate ClocksDrift(w: World, elapsed: int, clock: map<nat, int>) {
    clock.Keys == w.clock.Keys && forall p :: p in w.clock ==> Drift(elapsed, clock[p] - w.clock[p])
  }

  predicate FenceFree(s: System, issuer: nat) {
    forall t :: t in s.tasks ==> s.tasks[t].issuer != issuer
  }

  /** The world before and after a step that touches no message, task or lease. */
  predicate WorldEnabled(w: World, a: Action) {
    match a
    case Tick(elapsed, clock) => ClocksDrift(w, elapsed, clock)
    case Elect(term, issuer) => term !in w.electedAt && issuer in w.leaders
    case ApplyPlacement(issuer, placement) =>
      issuer in w.leaders &&
      (w.leaders[issuer].applied.Some? ==> w.leaders[issuer].applied.value.index < placement.index)
    case StartConfirm(issuer) => issuer in w.leaders && issuer in w.clock && w.leaders[issuer].confirming.None?
    case FinishConfirm(issuer, term) =>
      && issuer in w.leaders && issuer in w.clock && w.leaders[issuer].confirming.Some?
      && term in w.leaderOf && w.leaderOf[term] == issuer
      && Fresh(w.leaders[issuer].confirming.value.local, w.clock[issuer])
      && NoLaterLeaderBefore(w, term, w.leaders[issuer].confirming.value.instant)
    case AbandonConfirm(issuer) => issuer in w.leaders
    case Pause(issuer) => issuer in w.leaders && issuer in w.clock
    case Unpause(issuer) => issuer in w.leaders
    case _ => false
  }

  predicate TaskEnabled(w: World, t: Task, a: Action) {
    && t.issuer in w.leaders && t.issuer in w.clock
    && match a
       case TakeProof(_) =>
         t.Fenced? && w.leaders[t.issuer].cached.Some? &&
         Fresh(w.leaders[t.issuer].cached.value.at.local, w.clock[t.issuer])
       case ReadState(_) =>
         t.Proved? && w.leaders[t.issuer].applied.Some? &&
         ValidateRequest(t.call.request, Request(w.cluster, w.leaders[t.issuer].applied.value)).None?
       case FormGrant(_) =>
         t.Read? &&
         GrantFromProof(t.proof.term, t.proof.at.local, w.cluster, t.placement, w.clock[t.issuer]).Ok?
       case ReadClock(_) => t.Formed?
       case _ => false
  }

  predicate Enabled(s: System, a: Action) {
    match a
    case SendCall(node) => node in s.held && node in s.w.clock
    case StartGrant(task, issuer, call) =>
      task !in s.tasks && call in s.calls && issuer in s.w.leaders && s.w.leaders[issuer].paused.None?
    case Permit(task) => task in s.tasks && s.tasks[task].Timed? && s.tasks[task].issuer in s.w.leaders
    case FailGrant(task) => task in s.tasks
    case Deliver(response) =>
      response in s.issued && response.call.node in s.held && response.call.node in s.w.clock
    case AdoptPlacement(node, placement) => node in s.held
    case Pause(issuer) => WorldEnabled(s.w, a) && FenceFree(s, issuer)
    case TakeProof(task) => task in s.tasks && TaskEnabled(s.w, s.tasks[task], a)
    case ReadState(task) => task in s.tasks && TaskEnabled(s.w, s.tasks[task], a)
    case FormGrant(task) => task in s.tasks && TaskEnabled(s.w, s.tasks[task], a)
    case ReadClock(task) => task in s.tasks && TaskEnabled(s.w, s.tasks[task], a)
    case _ => WorldEnabled(s.w, a)
  }

  function WithLeader(w: World, issuer: nat, leader: Leader): World {
    w.(leaders := w.leaders[issuer := leader])
  }

  function IdentityOf(g: Grant): Identity {
    Identity(g.cluster, g.term, g.placement)
  }

  function NextLeader(w: World, a: Action): Leader
    requires WorldEnabled(w, a) && !a.Tick? && !a.Elect?
  {
    var l := w.leaders[a.issuer];
    match a
    case ApplyPlacement(_, placement) => l.(applied := Some(placement), appliedAt := l.appliedAt[placement := w.now])
    case StartConfirm(issuer) => l.(confirming := Some(StampAt(w, issuer)), cached := None)
    case FinishConfirm(_, term) => l.(confirming := None, cached := Some(Proof(term, l.confirming.value)))
    case AbandonConfirm(_) => l.(confirming := None)
    case Pause(issuer) => l.(paused := Some(StampAt(w, issuer)))
    case Unpause(_) => l.(paused := None)
  }

  function NextWorld(w: World, a: Action): World
    requires WorldEnabled(w, a)
  {
    match a
    case Tick(elapsed, clock) => w.(now := w.now + elapsed, clock := clock)
    case Elect(term, issuer) => w.(electedAt := w.electedAt[term := w.now], leaderOf := w.leaderOf[term := issuer])
    case _ => WithLeader(w, a.issuer, NextLeader(w, a))
  }

  function NextTask(w: World, t: Task, a: Action): Task
    requires TaskEnabled(w, t, a)
  {
    match a
    case TakeProof(_) => Proved(t.issuer, t.call, w.leaders[t.issuer].cached.value)
    case ReadState(_) => Read(t.issuer, t.call, t.proof, w.leaders[t.issuer].applied.value, w.now)
    case FormGrant(_) =>
      Formed(t.issuer, t.call, t.proof, t.placement, t.readAt,
             GrantFromProof(t.proof.term, t.proof.at.local, w.cluster, t.placement, w.clock[t.issuer]).value)
    case ReadClock(_) => Timed(t.issuer, t.call, t.proof, t.placement, t.readAt, t.grant, StampAt(w, t.issuer))
  }

  /** The issuer after its cutover guard judged a timed grant, and the grant if it was let out. */
  function Judge(w: World, t: Task): (Leader, Option<Issued>)
    requires t.Timed? && t.issuer in w.leaders
  {
    var l := w.leaders[t.issuer];
    var (observed, verdict) := Permits(l.observed, IdentityOf(t.grant), t.at.local);
    (l.(observed := observed, since := if observed == l.observed then l.since else t.at),
     if verdict == Ok(true)
     then Some(Issued(t.call, t.grant, t.issuer, t.proof, t.readAt, l.since, w.now)) else None)
  }

  function Receive(h: Held, r: Issued, now: int): Held {
    var (holder, _) := Accept(h.holder, Pending(r.call.request, r.call.at.local), r.grant, now);
    Held(holder,
         if holder.current.None? then None else if holder.current == h.holder.current then h.origin else Some(r))
  }

  function Adopt(h: Held, placement: LogId): Held {
    var holder := SetPlacement(h.holder, placement);
    Held(holder, if holder.current.None? then None else h.origin)
  }

  function Next(s: System, a: Action): System
    requires Enabled(s, a)
  {
    match a
    case SendCall(node) =>
      var h := s.held[node].holder;
      s.(calls := s.calls + {Call(node, Request(h.cluster, h.placement), StampAt(s.w, node))})
    case StartGrant(task, issuer, call) => s.(tasks := s.tasks[task := Fenced(issuer, call)])
    case Permit(task) =>
      var (leader, grant) := Judge(s.w, s.tasks[task]);
      s.(w := WithLeader(s.w, s.tasks[task].issuer, leader),
         tasks := s.tasks - {task},
         issued := if grant.Some? then s.issued + {grant.value} else s.issued)
    case FailGrant(task) => s.(tasks := s.tasks - {task})
    case Deliver(r) => s.(held := s.held[r.call.node := Receive(s.held[r.call.node], r, s.w.clock[r.call.node])])
    case AdoptPlacement(node, placement) => s.(held := s.held[node := Adopt(s.held[node], placement)])
    case TakeProof(task) => s.(tasks := s.tasks[task := NextTask(s.w, s.tasks[task], a)])
    case ReadState(task) => s.(tasks := s.tasks[task := NextTask(s.w, s.tasks[task], a)])
    case FormGrant(task) => s.(tasks := s.tasks[task := NextTask(s.w, s.tasks[task], a)])
    case ReadClock(task) => s.(tasks := s.tasks[task := NextTask(s.w, s.tasks[task], a)])
    case _ => s.(w := NextWorld(s.w, a))
  }

  predicate Initial(s: System) {
    && s.w.electedAt == map[] && s.w.leaderOf == map[] && s.calls == {} && s.tasks == map[] && s.issued == {}
    && (forall p :: p in s.w.leaders ==>
          p in s.w.clock && s.w.leaders[p] == Leader(None, map[], None, None, None, Stamp(0, 0), None))
    && (forall n :: n in s.held ==>
          n in s.w.clock && s.held[n].origin.None? && s.held[n].holder.current.None?)
  }

  /** The system after a whole run, or None when some action of it was not enabled. */
  function After(s: System, actions: seq<Action>): Option<System> {
    if actions == [] then Some(s)
    else
      match After(s, actions[..|actions| - 1])
      case None => None
      case Some(t) =>
        var a := actions[|actions| - 1];
        if Enabled(t, a) then Some(Next(t, a)) else None
  }

  // ---- Invariant

  /** The reading has aged, on its own clock, consistently with real time. */
  predicate Aged(w: World, participant: nat, at: Stamp) {
    participant in w.clock && at.instant <= w.now && Drift(w.now - at.instant, w.clock[participant] - at.local)
  }

  predicate ProofOk(w: World, issuer: nat, p: Proof) {
    && Aged(w, issuer, p.at)
    && p.term in w.electedAt && p.term in w.leaderOf && w.leaderOf[p.term] == issuer
    && NoLaterLeaderBefore(w, p.term, p.at.instant)
  }

  /** A placement read from the applied state of the issuer, before any newer one was applied there. */
  predicate ReadOk(w: World, issuer: nat, placement: LogId, readAt: int) {
    && issuer in w.leaders && readAt <= w.now
    && placement in w.leaders[issuer].appliedAt
    && NoNewerBefore(w.leaders[issuer], placement, readAt)
  }

  predicate NoNewerBefore(l: Leader, placement: LogId, instant: int) {
    forall newer :: newer in l.appliedAt && placement.index < newer.index ==> instant <= l.appliedAt[newer]
  }

  /** An identity observed at `since` names an elected term and a placement applied by then. */
  predicate ObservedOk(w: World, issuer: nat, identity: Identity, since: Stamp) {
    && issuer in w.leaders
    && Aged(w, issuer, since)
    && identity.term in w.electedAt && w.electedAt[identity.term] <= since.instant
    && identity.placement in w.leaders[issuer].appliedAt
    && w.leaders[issuer].appliedAt[identity.placement] <= since.instant
  }

  /** What a formed grant says, and how stale its proof can have been when the state was read. */
  predicate FormedOk(w: World, grant: Grant, proof: Proof, placement: LogId, readAt: int) {
    && grant == Grant(w.cluster, proof.term, placement, MAX_LIFETIME)
    && 10 * (readAt - proof.at.instant) <= 11 * PROOF_MAX_AGE
  }

  predicate TaskOk(w: World, t: Task) {
    && t.issuer in w.leaders && w.leaders[t.issuer].paused.None?
    && Aged(w, t.call.node, t.call.at)
    && (!t.Fenced? ==> ProofOk(w, t.issuer, t.proof))
    && (!t.Fenced? && !t.Proved? ==> ReadOk(w, t.issuer, t.placement, t.readAt) && t.call.at.instant <= t.readAt)
    && (t.Formed? || t.Timed? ==> FormedOk(w, t.grant, t.proof, t.placement, t.readAt))
    && (t.Timed? ==> ObservedOk(w, t.issuer, IdentityOf(t.grant), t.at))
  }

  predicate AppliedOk(w: World, l: Leader) {
    && (forall q :: q in l.appliedAt ==> l.applied.Some? && q.index <= l.applied.value.index && l.appliedAt[q] <= w.now)
    && (l.applied.Some? ==> l.applied.value in l.appliedAt)
    && (forall q, r :: q in l.appliedAt && r in l.appliedAt && q.index == r.index ==> q == r)
  }

  predicate LeaderOk(w: World, p: nat, l: Leader) {
    && p in w.clock
    && (l.confirming.Some? ==> Aged(w, p, l.confirming.value))
    && (l.cached.Some? ==> ProofOk(w, p, l.cached.value))
    && (l.observed.Some? ==> l.observed.value.readyAt == l.since.local + CUTOVER_WAIT
                             && ObservedOk(w, p, l.observed.value.identity, l.since))
    && (l.paused.Some? ==> Aged(w, p, l.paused.value))
    && AppliedOk(w, l)
  }

  predicate IssuedOk(w: World, r: Issued) {
    && Aged(w, r.call.node, r.call.at)
    && ProofOk(w, r.issuer, r.proof)
    && ReadOk(w, r.issuer, r.grant.placement, r.readAt)
    && r.call.at.instant <= r.readAt
    && FormedOk(w, r.grant, r.proof, r.grant.placement, r.readAt)
    && ObservedOk(w, r.issuer, IdentityOf(r.grant), r.since)
    && r.permittedAt <= w.now && 11 * CUTOVER_WAIT <= 12 * (r.permittedAt - r.since.instant)
    && (w.leaders[r.issuer].paused.Some? ==> r.readAt <= w.leaders[r.issuer].paused.value.instant)
  }

  predicate HeldOk(s: System, node: nat, h: Held) {
    && node in s.w.clock
    && HolderOk(h.holder)
    && (h.holder.current.Some? ==>
          && h.origin.Some? && h.origin.value in s.issued
          && var r := h.origin.value;
             && r.call.node == node
             && r.grant.term == h.holder.current.value.term
             && r.grant.placement == h.holder.current.value.placement
             && h.holder.current.value.expiresAt == r.call.at.local + MAX_LIFETIME)
  }

  predicate ElectionsOk(w: World) {
    w.electedAt.Keys == w.leaderOf.Keys && forall t :: t in w.electedAt ==> w.electedAt[t] <= w.now
  }

  predicate LeadersOk(w: World) {
    forall p :: p in w.leaders ==> LeaderOk(w, p, w.leaders[p])
  }

  predicate CallsOk(w: World, calls: set<Call>) {
    forall c :: c in calls ==> Aged(w, c.node, c.at)
  }

  predicate TasksOk(w: World, tasks: map<nat, Task>) {
    forall t :: t in tasks ==> TaskOk(w, tasks[t])
  }

  predicate AllIssuedOk(w: World, issued: set<Issued>) {
    forall r :: r in issued ==> IssuedOk(w, r)
  }

  predicate AllHeldOk(s: System) {
    forall n :: n in s.held ==> HeldOk(s, n, s.held[n])
  }

  predicate Inv(s: System) {
    && ElectionsOk(s.w) && LeadersOk(s.w)
    && CallsOk(s.w, s.calls) && TasksOk(s.w, s.tasks) && AllIssuedOk(s.w, s.issued)
    && AllHeldOk(s)
  }

  // ---- What every change of the world keeps

  predicate LeaderEvolves(now: int, l: Leader, l': Leader) {
    && (forall q :: q in l.appliedAt ==> q in l'.appliedAt && l'.appliedAt[q] == l.appliedAt[q])
    && (forall q :: q in l'.appliedAt && q !in l.appliedAt ==> now <= l'.appliedAt[q])
    && (l'.paused.Some? && l'.paused != l.paused ==> now <= l'.paused.value.instant)
  }

  predicate ElectionsEvolve(w: World, w': World) {
    && (forall t :: t in w.electedAt ==> t in w'.electedAt && w'.electedAt[t] == w.electedAt[t])
    && (forall t :: t in w'.electedAt && t !in w.electedAt ==> w.now <= w'.electedAt[t])
    && (forall t :: t in w.leaderOf ==> t in w'.leaderOf && w'.leaderOf[t] == w.leaderOf[t])
  }

  /** Time moves on, elections and applied placements only accumulate, and new ones are not back-dated. */
  predicate Evolves(w: World, w': World) {
    && w'.cluster == w.cluster && w.now <= w'.now
    && ClocksDrift(w, w'.now - w.now, w'.clock)
    && ElectionsEvolve(w, w')
    && w'.leaders.Keys == w.leaders.Keys
    && (forall p :: p in w.leaders ==> LeaderEvolves(w.now, w.leaders[p], w'.leaders[p]))
  }

  lemma AgedPersists(w: World, w': World, p: nat, at: Stamp)
    requires Evolves(w, w') && Aged(w, p, at)
    ensures Aged(w', p, at)
  {
  }

  lemma ProofPersists(w: World, w': World, issuer: nat, proof: Proof)
    requires Evolves(w, w') && ProofOk(w, issuer, proof)
    ensures ProofOk(w', issuer, proof)
  {
    AgedPersists(w, w', issuer, proof.at);
  }

  lemma ReadPersists(w: World, w': World, issuer: nat, placement: LogId, readAt: int)
    requires Evolves(w, w') && ReadOk(w, issuer, placement, readAt)
    ensures ReadOk(w', issuer, placement, readAt)
  {
    assert LeaderEvolves(w.now, w.leaders[issuer], w'.leaders[issuer]);
  }

  lemma ObservedPersists(w: World, w': World, issuer: nat, identity: Identity, since: Stamp)
    requires Evolves(w, w') && ObservedOk(w, issuer, identity, since)
    ensures ObservedOk(w', issuer, identity, since)
  {
    AgedPersists(w, w', issuer, since);
    assert LeaderEvolves(w.now, w.leaders[issuer], w'.leaders[issuer]);
  }

  lemma IssuedPersists(w: World, w': World, r: Issued)
    requires Evolves(w, w') && IssuedOk(w, r)
    ensures IssuedOk(w', r)
  {
    AgedPersists(w, w', r.call.node, r.call.at);
    ProofPersists(w, w', r.issuer, r.proof);
    ReadPersists(w, w', r.issuer, r.grant.placement, r.readAt);
    ObservedPersists(w, w', r.issuer, IdentityOf(r.grant), r.since);
    assert LeaderEvolves(w.now, w.leaders[r.issuer], w'.leaders[r.issuer]);
  }

  lemma TaskPersists(w: World, w': World, t: Task)
    requires Evolves(w, w') && TaskOk(w, t) && w'.leaders[t.issuer].paused.None?
    ensures TaskOk(w', t)
  {
    AgedPersists(w, w', t.call.node, t.call.at);
    if !t.Fenced? {
      ProofPersists(w, w', t.issuer, t.proof);
      if !t.Proved? {
        ReadPersists(w, w', t.issuer, t.placement, t.readAt);
        if t.Timed? {
          ObservedPersists(w, w', t.issuer, IdentityOf(t.grant), t.at);
        }
      }
    }
  }

  lemma LeaderPersists(w: World, w': World, p: nat, l: Leader)
    requires Evolves(w, w') && LeaderOk(w, p, l) && p in w.leaders
    ensures LeaderOk(w', p, l)
  {
    if l.confirming.Some? {
      AgedPersists(w, w', p, l.confirming.value);
    }
    if l.cached.Some? {
      ProofPersists(w, w', p, l.cached.value);
    }
    if l.observed.Some? {
      ObservedPersists(w, w', p, l.observed.value.identity, l.since);
    }
    if l.paused.Some? {
      AgedPersists(w, w', p, l.paused.value);
    }
  }

  /** Everything a state records stays justified when only the world around it changes. */
  lemma WorldChangeKeepsInv(s: System, w': World)
    requires Inv(s) && Evolves(s.w, w') && ElectionsOk(w')
    requires forall p :: p in w'.leaders && w'.leaders[p] != s.w.leaders[p] ==> LeaderOk(w', p, w'.leaders[p])
    requires forall p :: p in w'.leaders && s.w.leaders[p].paused.None? && w'.leaders[p].paused.Some? ==> FenceFree(s, p)
    ensures Inv(s.(w := w'))
  {
    var w := s.w;
    forall c | c in s.calls
      ensures Aged(w', c.node, c.at)
    {
      AgedPersists(w, w', c.node, c.at);
    }
    forall r | r in s.issued
      ensures IssuedOk(w', r)
    {
      IssuedPersists(w, w', r);
    }
    forall p | p in w'.leaders
      ensures LeaderOk(w', p, w'.leaders[p])
    {
      if w'.leaders[p] == w.leaders[p] {
        LeaderPersists(w, w', p, w.leaders[p]);
      }
    }
    forall t | t in s.tasks
      ensures TaskOk(w', s.tasks[t])
    {
      assert TaskOk(w, s.tasks[t]);
      TaskPersists(w, w', s.tasks[t]);
    }
    assert AllHeldOk(s.(w := w')) by {
      forall n | n in s.held
        ensures HeldOk(s.(w := w'), n, s.held[n])
      {
        assert HeldOk(s, n, s.held[n]);
      }
    }
  }

  lemma WithLeaderEvolves(w: World, issuer: nat, l: Leader)
    requires issuer in w.leaders && LeaderEvolves(w.now, w.leaders[issuer], l)
    ensures Evolves(w, WithLeader(w, issuer, l))
  {
  }

  // ---- Each kind of step

  lemma ClockStepKeepsInv(s: System, a: Action)
    requires a.Tick? || a.Elect?
    requires WorldEnabled(s.w, a) && Inv(s)
    ensures Inv(s.(w := NextWorld(s.w, a)))
  {
    WorldChangeKeepsInv(s, NextWorld(s.w, a));
  }

  lemma NextLeaderEvolves(w: World, a: Action)
    requires WorldEnabled(w, a) && !a.Tick? && !a.Elect?
    requires LeaderOk(w, a.issuer, w.leaders[a.issuer]) && ElectionsOk(w)
    ensures LeaderEvolves(w.now, w.leaders[a.issuer], NextLeader(w, a))
  {
  }

  lemma NextLeaderOkNow(w: World, a: Action)
    requires WorldEnabled(w, a) && !a.Tick? && !a.Elect?
    requires LeaderOk(w, a.issuer, w.leaders[a.issuer]) && ElectionsOk(w)
    ensures LeaderOk(w, a.issuer, NextLeader(w, a))
  {
  }

  lemma NewLeaderOk(w: World, a: Action)
    requires WorldEnabled(w, a) && !a.Tick? && !a.Elect?
    requires LeaderOk(w, a.issuer, w.leaders[a.issuer]) && ElectionsOk(w)
    ensures LeaderEvolves(w.now, w.leaders[a.issuer], NextLeader(w, a))
    ensures LeaderOk(NextWorld(w, a), a.issuer, NextLeader(w, a))
  {
    NextLeaderEvolves(w, a);
    NextLeaderOkNow(w, a);
    WithLeaderEvolves(w, a.issuer, NextLeader(w, a));
    LeaderPersists(w, NextWorld(w, a), a.issuer, NextLeader(w, a));
  }

  lemma LeaderStepKeepsInv(s: System, a: Action)
    requires WorldEnabled(s.w, a) && !a.Tick? && !a.Elect?
    requires a.Pause? ==> FenceFree(s, a.issuer)
    requires Inv(s)
    ensures Inv(s.(w := NextWorld(s.w, a)))
  {
    var l := NextLeader(s.w, a);
    NewLeaderOk(s.w, a);
    assert NextWorld(s.w, a) == WithLeader(s.w, a.issuer, l);
    LeaderChangeKeepsInv(s, a.issuer, l);
  }

  lemma LeaderChangeKeepsInv(s: System, issuer: nat, l: Leader)
    requires Inv(s) && issuer in s.w.leaders && LeaderEvolves(s.w.now, s.w.leaders[issuer], l)
    requires LeaderOk(WithLeader(s.w, issuer, l), issuer, l)
    requires s.w.leaders[issuer].paused.None? && l.paused.Some? ==> FenceFree(s, issuer)
    ensures Inv(s.(w := WithLeader(s.w, issuer, l)))
  {
    WithLeaderEvolves(s.w, issuer, l);
    WorldChangeKeepsInv(s, WithLeader(s.w, issuer, l));
  }

  lemma TaskStepOk(w: World, t: Task, a: Action)
    requires TaskEnabled(w, t, a) && TaskOk(w, t) && LeaderOk(w, t.issuer, w.leaders[t.issuer]) && ElectionsOk(w)
    ensures TaskOk(w, NextTask(w, t, a))
  {
  }

  lemma TaskStepKeepsInv(s: System, a: Action, task: nat)
    requires task in s.tasks && TaskEnabled(s.w, s.tasks[task], a) && Inv(s)
    ensures Inv(s.(tasks := s.tasks[task := NextTask(s.w, s.tasks[task], a)]))
  {
    TaskStepOk(s.w, s.tasks[task], a);
    HeldUnaffected(s, s.(tasks := s.tasks[task := NextTask(s.w, s.tasks[task], a)]));
  }

  lemma TaskNextKeepsInv(s: System, a: Action)
    requires Inv(s) && Enabled(s, a) && (a.TakeProof? || a.ReadState? || a.FormGrant? || a.ReadClock?)
    ensures Inv(Next(s, a))
  {
    TaskStepKeepsInv(s, a, a.task);
  }

  /** Leases depend on the clocks and on what was issued, and on nothing else. */
  lemma HeldUnaffected(s: System, s': System)
    requires AllHeldOk(s) && s'.held == s.held && s'.w.clock.Keys == s.w.clock.Keys && s.issued <= s'.issued
    ensures AllHeldOk(s')
  {
    forall n | n in s'.held
      ensures HeldOk(s', n, s'.held[n])
    {
      assert HeldOk(s, n, s.held[n]);
    }
  }

  /** A permitted grant names an identity that its issuer had observed for the whole cutover wait. */
  lemma JudgeOk(w: World, t: Task)
    requires t.Timed? && TaskOk(w, t) && LeaderOk(w, t.issuer, w.leaders[t.issuer])
    ensures LeaderEvolves(w.now, w.leaders[t.issuer], Judge(w, t).0)
    ensures LeaderOk(w, t.issuer, Judge(w, t).0)
    ensures Judge(w, t).1.Some? ==> IssuedOk(w, Judge(w, t).1.value)
  {
  }

  lemma GrantKeepsInv(s: System, task: nat, grant: Option<Issued>)
    requires Inv(s) && (grant.Some? ==> IssuedOk(s.w, grant.value))
    ensures Inv(s.(tasks := s.tasks - {task}, issued := if grant.Some? then s.issued + {grant.value} else s.issued))
  {
    HeldUnaffected(s, s.(tasks := s.tasks - {task},
                         issued := if grant.Some? then s.issued + {grant.value} else s.issued));
  }

  lemma JudgedLeaderKeepsInv(s: System, issuer: nat, l: Leader)
    requires Inv(s) && issuer in s.w.leaders && LeaderOk(s.w, issuer, l)
    requires LeaderEvolves(s.w.now, s.w.leaders[issuer], l) && l.paused == s.w.leaders[issuer].paused
    ensures Inv(s.(w := WithLeader(s.w, issuer, l)))
  {
    var w' := WithLeader(s.w, issuer, l);
    WithLeaderEvolves(s.w, issuer, l);
    LeaderPersists(s.w, w', issuer, l);
    LeaderChangeKeepsInv(s, issuer, l);
  }

  lemma PermitKeepsInv(s: System, task: nat)
    requires task in s.tasks && s.tasks[task].Timed? && Inv(s)
    requires Enabled(s, Permit(task))
    ensures Inv(Next(s, Permit(task)))
  {
    var t := s.tasks[task];
    var (leader, grant) := Judge(s.w, t);
    JudgeOk(s.w, t);
    GrantKeepsInv(s, task, grant);
    JudgedLeaderKeepsInv(
      s.(tasks := s.tasks - {task}, issued := if grant.Some? then s.issued + {grant.value} else s.issued),
      t.issuer, leader);
  }

  /** The lease a recipient holds after a response came from that response or is the one it held before. */
  lemma ReceiveOk(s: System, node: nat, r: Issued)
    requires node in s.held && HeldOk(s, node, s.held[node])
    requires r in s.issued && r.call.node == node && r.grant.lifetime == MAX_LIFETIME
    ensures HeldOk(s, node, Receive(s.held[node], r, s.w.clock[node]))
  {
  }

  lemma HeldChangeKeepsInv(s: System, node: nat, h: Held)
    requires Inv(s) && HeldOk(s, node, h)
    ensures Inv(s.(held := s.held[node := h]))
  {
    var s' := s.(held := s.held[node := h]);
    forall n | n in s'.held
      ensures HeldOk(s', n, s'.held[n])
    {
      assert n in s.held ==> HeldOk(s, n, s.held[n]);
    }
  }

  lemma DeliverKeepsInv(s: System, r: Issued)
    requires Inv(s) && Enabled(s, Deliver(r))
    ensures Inv(Next(s, Deliver(r)))
  {
    assert IssuedOk(s.w, r);
    ReceiveOk(s, r.call.node, r);
    HeldChangeKeepsInv(s, r.call.node, Receive(s.held[r.call.node], r, s.w.clock[r.call.node]));
  }

  lemma AdoptKeepsInv(s: System, node: nat, placement: LogId)
    requires Inv(s) && Enabled(s, AdoptPlacement(node, placement))
    ensures Inv(Next(s, AdoptPlacement(node, placement)))
  {
    assert HeldOk(s, node, s.held[node]);
    HeldChangeKeepsInv(s, node, Adopt(s.held[node], placement));
  }

  lemma RequestStepKeepsInv(s: System, a: Action)
    requires Inv(s) && Enabled(s, a) && (a.SendCall? || a.StartGrant? || a.FailGrant?)
    ensures Inv(Next(s, a))
  {
    HeldUnaffected(s, Next(s, a));
  }

  lemma WorldNextKeepsInv(s: System, a: Action)
    requires Inv(s) && Enabled(s, a) && WorldEnabled(s.w, a)
    ensures Inv(Next(s, a))
  {
    if a.Tick? || a.Elect? {
      ClockStepKeepsInv(s, a);
    } else {
      LeaderStepKeepsInv(s, a);
    }
  }

  lemma HolderNextKeepsInv(s: System, a: Action)
    requires Inv(s) && Enabled(s, a) && (a.Permit? || a.Deliver? || a.AdoptPlacement?)
    ensures Inv(Next(s, a))
  {
    if a.Permit? {
      PermitKeepsInv(s, a.task);
    } else if a.Deliver? {
      DeliverKeepsInv(s, a.response);
    } else {
      AdoptKeepsInv(s, a.node, a.placement);
    }
  }

  lemma NextKeepsInv(s: System, a: Action)
    requires Enabled(s, a) && Inv(s)
    ensures Inv(Next(s, a))
  {
    if a.SendCall? || a.StartGrant? || a.FailGrant? {
      RequestStepKeepsInv(s, a);
    } else if a.TakeProof? || a.ReadState? || a.FormGrant? || a.ReadClock? {
      TaskNextKeepsInv(s, a);
    } else if a.Permit? || a.Deliver? || a.AdoptPlacement? {
      HolderNextKeepsInv(s, a);
    } else {
      WorldNextKeepsInv(s, a);
    }
  }

  lemma {:induction false} RunKeepsInv(s: System, actions: seq<Action>)
    requires Initial(s) && After(s, actions).Some?
    ensures Inv(After(s, actions).value)
  {
    if actions != [] {
      var before := actions[..|actions| - 1];
      RunKeepsInv(s, before);
      NextKeepsInv(After(s, before).value, actions[|actions| - 1]);
    }
  }

  // ---- Theorems

  predicate Serving(s: System, node: nat) {
    node in s.held && node in s.w.clock && Valid(s.held[node].holder, s.w.clock[node])
  }

  /** In real time a lease ends less than 2.2 seconds after its request was sent. */
  lemma LeaseIsShort(s: System, node: nat)
    requires Inv(s) && Serving(s, node)
    ensures s.held[node].origin.Some?
    ensures var r := s.held[node].origin.value;
            IssuedOk(s.w, r) && 10 * (s.w.now - r.call.at.instant) < 11 * MAX_LIFETIME
  {
    assert HeldOk(s, node, s.held[node]);
    assert IssuedOk(s.w, s.held[node].origin.value);
  }

  /** A lease of an older term has ended before any grant of a newer term can be permitted. */
  lemma TermsDoNotOverlap(w: World, older: Issued, newer: Issued)
    requires IssuedOk(w, older) && IssuedOk(w, newer)
    requires older.grant.term < newer.grant.term
    ensures 11 * MAX_LIFETIME <= 10 * (w.now - older.call.at.instant)
  {
    assert older.proof.at.instant <= w.electedAt[newer.grant.term] <= newer.since.instant;
  }

  /** So has a lease of an older placement, before a newer placement is served in the same term. */
  lemma PlacementsDoNotOverlap(w: World, older: Issued, newer: Issued)
    requires IssuedOk(w, older) && IssuedOk(w, newer)
    requires older.grant.term == newer.grant.term
    requires older.grant.placement.index < newer.grant.placement.index
    ensures 11 * MAX_LIFETIME <= 10 * (w.now - older.call.at.instant)
  {
    var appliedAt := w.leaders[older.issuer].appliedAt;
    assert older.readAt <= appliedAt[newer.grant.placement] <= newer.since.instant;
  }

  /**
    In every timed run, leases that are valid at the same instant, on any two
    recipients, name the same Raft term and the same placement.
   */
  lemma OneAuthorityAtATime(s: System, actions: seq<Action>, m: nat, n: nat)
    requires Initial(s) && After(s, actions).Some?
    requires Serving(After(s, actions).value, m) && Serving(After(s, actions).value, n)
    ensures var t := After(s, actions).value;
            var left, right := t.held[m].holder.current.value, t.held[n].holder.current.value;
            left.term == right.term && left.placement == right.placement
  {
    RunKeepsInv(s, actions);
    var t := After(s, actions).value;
    LeaseIsShort(t, m);
    LeaseIsShort(t, n);
    var left, right := t.held[m].origin.value, t.held[n].origin.value;
    assert HeldOk(t, m, t.held[m]) && HeldOk(t, n, t.held[n]);
    if left.grant.term < right.grant.term {
      TermsDoNotOverlap(t.w, left, right);
    } else if right.grant.term < left.grant.term {
      TermsDoNotOverlap(t.w, right, left);
    } else {
      assert LeaderOk(t.w, left.issuer, t.w.leaders[left.issuer]);
      if left.grant.placement.index < right.grant.placement.index {
        PlacementsDoNotOverlap(t.w, left, right);
      } else if right.grant.placement.index < left.grant.placement.index {
        PlacementsDoNotOverlap(t.w, right, left);
      }
    }
  }

  /**
    Once an issuer's grants are paused and the cutover wait has passed on its own
    clock, no lease from that issuer is valid anywhere.
   */
  lemma PauseDrainsIssuer(s: System, actions: seq<Action>, issuer: nat, node: nat)
    requires Initial(s) && After(s, actions).Some?
    requires var t := After(s, actions).value;
             && issuer in t.w.leaders && issuer in t.w.clock && t.w.leaders[issuer].paused.Some?
             && t.w.clock[issuer] - t.w.leaders[issuer].paused.value.local >= CUTOVER_WAIT
             && node in t.held && t.held[node].origin.Some? && t.held[node].origin.value.issuer == issuer
    ensures !Serving(After(s, actions).value, node)
  {
    RunKeepsInv(s, actions);
    var t := After(s, actions).value;
    assert LeaderOk(t.w, issuer, t.w.leaders[issuer]);
    if Serving(t, node) {
      LeaseIsShort(t, node);
    }
  }
}
