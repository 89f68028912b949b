/** A run in which a lease is granted, so that the theorems about valid leases speak of states that occur. */
module LeaseExample {
  import opened Prelude
  import opened LogIds
  import opened ServingLease
  import opened LeaseProtocol

  const PLACEMENT := LogId(1, 1)
  const NEW_LEADER := Leader(None, map[], None, None, None, Stamp(0, 0), None)
  const NEW_HOLDER := Held(Holder(7, PLACEMENT, 1, None), None)

  /** One process that leads and one recipient beside it, on the same clock. */
  const START := System(World(7, 0, map[0 := 0], map[], map[], map[0 := NEW_LEADER]), map[0 := NEW_HOLDER], {}, map[], {})

  lemma Do(s: System, actions: seq<Action>, a: Action) returns (t: System)
    requires After(START, actions) == Some(s) && Enabled(s, a)
    ensures t == Next(s, a) && After(START, actions + [a]) == Some(t)
  {
    assert (actions + [a])[..|actions|] == actions;
    t := Next(s, a);
  }

  /** Leading in term 1 with the placement applied, nothing paused and nothing pending. */
  predicate Leads(s: System) {
    && s.w.clock.Keys == {0} && s.w.leaders.Keys == {0} && s.held.Keys == {0} && s.tasks == map[] && s.w.cluster == 7
    && s.w.electedAt.Keys == {1} && s.w.leaderOf == map[1 := 0]
    && s.w.leaders[0].applied == Some(PLACEMENT) && s.w.leaders[0].confirming.None? && s.w.leaders[0].paused.None?
    && s.held[0] == NEW_HOLDER
  }

  lemma Settle() returns (s: System, actions: seq<Action>)
    ensures After(START, actions) == Some(s) && Leads(s)
    ensures s.w.leaders[0].observed.None? && s.w.now == 0 && s.w.clock[0] == 0
  {
    s := Do(START, [], Elect(1, 0));
    actions := [] + [Elect(1, 0)];
    s := Do(s, actions, ApplyPlacement(0, PLACEMENT));
    actions := actions + [ApplyPlacement(0, PLACEMENT)];
  }

  /** Nothing but proofs, calls and tasks has changed. */
  predicate Beside(s: System, t: System) {
    && t.w.now == s.w.now && t.w.clock == s.w.clock && t.held == s.held && t.w.cluster == s.w.cluster
    && t.w.electedAt == s.w.electedAt && t.w.leaderOf == s.w.leaderOf && t.w.leaders.Keys == s.w.leaders.Keys
    && 0 in t.w.leaders && 0 in s.w.leaders && t.w.leaders[0].observed == s.w.leaders[0].observed
    && t.w.leaders[0].applied == s.w.leaders[0].applied && t.w.leaders[0].paused == s.w.leaders[0].paused
  }

  lemma Confirm(s: System, before: seq<Action>) returns (t: System, actions: seq<Action>)
    requires After(START, before) == Some(s) && Leads(s)
    ensures After(START, actions) == Some(t) && Leads(t) && Beside(s, t)
    ensures t.w.leaders[0].cached == Some(Proof(1, StampAt(t.w, 0)))
  {
    t := Do(s, before, StartConfirm(0));
    actions := before + [StartConfirm(0)];
    t := Do(t, actions, FinishConfirm(0, 1));
    actions := actions + [FinishConfirm(0, 1)];
  }

  function FirstCall(s: System): Call
    requires 0 in s.w.clock
  {
    Call(0, Request(7, PLACEMENT), StampAt(s.w, 0))
  }

  lemma Send(s: System, before: seq<Action>) returns (t: System, actions: seq<Action>)
    requires After(START, before) == Some(s) && Leads(s)
    ensures After(START, actions) == Some(t) && Beside(s, t) && t.w == s.w
    ensures t.tasks == map[0 := Fenced(0, FirstCall(s))]
  {
    t := Do(s, before, SendCall(0));
    actions := before + [SendCall(0)];
    t := Do(t, actions, StartGrant(0, 0, FirstCall(s)));
    actions := actions + [StartGrant(0, 0, FirstCall(s))];
  }

  /** The grant is formed and timed, and only the cutover guard is left. */
  predicate Ready(s: System) {
    && s.tasks.Keys == {0} && s.tasks[0].Timed? && s.tasks[0].issuer == 0 && 0 in s.w.clock && s.tasks[0].at == StampAt(s.w, 0)
    && s.tasks[0].grant == Grant(7, 1, PLACEMENT, MAX_LIFETIME) && s.tasks[0].call == FirstCall(s)
  }

  lemma ReadUp(s: System, before: seq<Action>) returns (t: System, actions: seq<Action>)
    requires After(START, before) == Some(s) && 0 in s.w.clock && s.tasks == map[0 := Fenced(0, FirstCall(s))]
    requires 0 in s.w.leaders && s.w.leaders[0].cached == Some(Proof(1, StampAt(s.w, 0)))
    requires s.w.leaders[0].applied == Some(PLACEMENT) && s.w.cluster == 7
    ensures After(START, actions) == Some(t) && t.w == s.w && t.held == s.held
    ensures t.tasks == map[0 := Read(0, FirstCall(s), Proof(1, StampAt(s.w, 0)), PLACEMENT, s.w.now)]
  {
    t := Do(s, before, TakeProof(0));
    actions := before + [TakeProof(0)];
    t := Do(t, actions, ReadState(0));
    actions := actions + [ReadState(0)];
  }

  lemma Form(s: System, before: seq<Action>) returns (t: System, actions: seq<Action>)
    requires After(START, before) == Some(s) && 0 in s.w.clock && s.tasks == map[0 := Fenced(0, FirstCall(s))]
    requires 0 in s.w.leaders && s.w.leaders[0].cached == Some(Proof(1, StampAt(s.w, 0)))
    requires s.w.leaders[0].applied == Some(PLACEMENT) && s.w.cluster == 7
    ensures After(START, actions) == Some(t) && Ready(t) && t.w == s.w && t.held == s.held
  {
    t, actions := ReadUp(s, before);
    t := Do(t, actions, FormGrant(0));
    actions := actions + [FormGrant(0)];
    t := Do(t, actions, ReadClock(0));
    actions := actions + [ReadClock(0)];
  }

  lemma Ask(s: System, before: seq<Action>) returns (t: System, actions: seq<Action>)
    requires After(START, before) == Some(s) && Leads(s)
    ensures After(START, actions) == Some(t) && Ready(t) && Beside(s, t) && t.w.leaders[0].confirming.None?
  {
    t, actions := Confirm(s, before);
    t, actions := Send(t, actions);
    t, actions := Form(t, actions);
  }

  /** The first grant is withheld and starts the cutover wait. */
  lemma FirstGrant() returns (s: System, actions: seq<Action>)
    ensures After(START, actions) == Some(s) && Leads(s) && s.w.clock[0] == CUTOVER_WAIT
    ensures s.w.leaders[0].observed == Some(Observation(Identity(7, 1, PLACEMENT), CUTOVER_WAIT))
  {
    s, actions := Settle();
    s, actions := Ask(s, actions);
    s := Do(s, actions, Permit(0));
    actions := actions + [Permit(0)];
    var tick := Tick(CUTOVER_WAIT, map[0 := CUTOVER_WAIT]);
    s := Do(s, actions, tick);
    actions := actions + [tick];
  }

  /** A ready grant is let out once its identity has been observed for the whole wait. */
  lemma LetOut(s: System, before: seq<Action>) returns (t: System, actions: seq<Action>, response: Issued)
    requires After(START, before) == Some(s) && Ready(s) && 0 in s.w.leaders && s.w.clock[0] == CUTOVER_WAIT
    requires s.w.leaders[0].observed == Some(Observation(Identity(7, 1, PLACEMENT), CUTOVER_WAIT))
    ensures After(START, actions) == Some(t) && t.held == s.held && t.w.clock == s.w.clock && response in t.issued
    ensures response.call == FirstCall(s) && response.grant == Grant(7, 1, PLACEMENT, MAX_LIFETIME)
  {
    response := Judge(s.w, s.tasks[0]).1.value;
    t := Do(s, before, Permit(0));
    actions := before + [Permit(0)];
  }

  /** The grant asked for after the wait is let out and accepted. */
  lemma ALeaseIsServed()
    ensures Initial(START)
    ensures exists actions :: After(START, actions).Some? && Serving(After(START, actions).value, 0)
  {
    var s, actions := FirstGrant();
    s, actions := Ask(s, actions);
    var response;
    s, actions, response := LetOut(s, actions);
    s := Do(s, actions, Deliver(response));
    actions := actions + [Deliver(response)];
    assert Serving(s, 0);
  }
}
