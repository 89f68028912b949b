/**
  The search decides membership in the least fixpoint of the relation rules,
  for every schema and tuple graph, cyclic ones included.
 */
module AuthzTheorems {
  import opened Prelude
  import opened AuthzModel
  import opened AuthzSchema
  import opened AuthzEvaluator

  // ---- Rules

  /** The objects that tuples of a relation on this object lead to. */
  predicate Linked(a: Authorization, resource: ObjectRef, tupleRelation: string, o: ObjectRef) {
    var m := Members(a.tuples, UsersetRef(resource, tupleRelation));
    o in m.objects || exists i :: 0 <= i < |m.usersets| && m.usersets[i].resource == o
  }

  predicate RuleEdge(a: Authorization, resource: ObjectRef, r: RewriteRule, v: UsersetRef) {
    match r
    case Inherit(relation) => v == UsersetRef(resource, relation)
    case TupleToUserset(tupleRelation, targetRelation) =>
      v.relation == targetRelation && Linked(a, resource, tupleRelation, v.resource)
  }

  /** Membership of `u` follows from membership of `v`. */
  predicate Edge(a: Authorization, u: UsersetRef, v: UsersetRef) {
    match Lookup(a.schema, u.resource.namespace, u.relation)
    case None => false
    case Some(Direct(_)) => v in Members(a.tuples, u).usersets
    case Some(Permission(rules)) => exists i :: 0 <= i < |rules| && RuleEdge(a, u.resource, rules[i], v)
  }

  /** The subject is a direct member. */
  predicate Hit(a: Authorization, s: ObjectRef, u: UsersetRef) {
    match Lookup(a.schema, u.resource.namespace, u.relation)
    case Some(Direct(_)) => s in Members(a.tuples, u).objects
    case _ => false
  }

  /** A derivation of height at most `n` that uses no userset of `avoid`. */
  ghost predicate Grants(a: Authorization, s: ObjectRef, u: UsersetRef, avoid: set<UsersetRef>, n: nat)
    decreases n
  {
    && n > 0 && u !in avoid
    && (Hit(a, s, u) || exists v :: Edge(a, u, v) && Grants(a, s, v, avoid, n - 1))
  }

  ghost predicate Reaches(a: Authorization, s: ObjectRef, u: UsersetRef, avoid: set<UsersetRef>) {
    exists n: nat :: Grants(a, s, u, avoid, n)
  }

  ghost predicate Member(a: Authorization, s: ObjectRef, u: UsersetRef) {
    Reaches(a, s, u, {})
  }

  /** A set of usersets closed under the direct, inherit and tuple-to-userset rules. */
  ghost predicate RuleClosedSet(a: Authorization, s: ObjectRef, members: iset<UsersetRef>) {
    && (forall u :: Hit(a, s, u) ==> u in members)
    && (forall u, v :: Edge(a, u, v) && v in members ==> u in members)
  }

  /** Membership is closed under the rules and contained in every set that is. */
  lemma MemberIsLeastFixpoint(a: Authorization, s: ObjectRef)
    ensures RuleClosedSet(a, s, iset u | Member(a, s, u))
    ensures forall members: iset<UsersetRef> :: RuleClosedSet(a, s, members) ==>
              forall u :: Member(a, s, u) ==> u in members
  {
    forall u | Hit(a, s, u)
      ensures Member(a, s, u)
    {
      assert Grants(a, s, u, {}, 1);
    }
    forall u, v | Edge(a, u, v) && Member(a, s, v)
      ensures Member(a, s, u)
    {
      var n: nat :| Grants(a, s, v, {}, n);
      assert Grants(a, s, u, {}, n + 1);
    }
    forall members: iset<UsersetRef>, u | RuleClosedSet(a, s, members) && Member(a, s, u)
      ensures u in members
    {
      var n: nat :| Grants(a, s, u, {}, n);
      GrantsInside(a, s, u, n, members);
    }
  }

  lemma {:induction false} GrantsInside(a: Authorization, s: ObjectRef, u: UsersetRef, n: nat, members: iset<UsersetRef>)
    requires RuleClosedSet(a, s, members) && Grants(a, s, u, {}, n)
    ensures u in members
    decreases n
  {
    if !Hit(a, s, u) {
      var v :| Edge(a, u, v) && Grants(a, s, v, {}, n - 1);
      GrantsInside(a, s, v, n - 1, members);
    }
  }

  // ---- Cutting cycles

  lemma {:induction false} GrantsWeaken(a: Authorization, s: ObjectRef, u: UsersetRef, avoid: set<UsersetRef>, n: nat)
    requires Grants(a, s, u, avoid, n)
    ensures Grants(a, s, u, {}, n)
    decreases n
  {
    if !Hit(a, s, u) {
      var v :| Edge(a, u, v) && Grants(a, s, v, avoid, n - 1);
      GrantsWeaken(a, s, v, avoid, n - 1);
    }
  }

  /** A derivation either never uses `u` or contains one for `u`. */
  lemma {:induction false} AvoidsOrContains(
    a: Authorization, s: ObjectRef, w: UsersetRef, u: UsersetRef, avoid: set<UsersetRef>, n: nat)
    requires Grants(a, s, w, avoid, n)
    ensures Grants(a, s, w, avoid + {u}, n) || exists m: nat :: m <= n && Grants(a, s, u, avoid, m)
    decreases n
  {
    if w == u {
      assert Grants(a, s, u, avoid, n);
    } else if !Hit(a, s, w) {
      var v :| Edge(a, w, v) && Grants(a, s, v, avoid, n - 1);
      AvoidsOrContains(a, s, v, u, avoid, n - 1);
      if Grants(a, s, v, avoid + {u}, n - 1) {
        assert Grants(a, s, w, avoid + {u}, n);
      } else {
        var m: nat :| m <= n - 1 && Grants(a, s, u, avoid, m);
      }
    }
  }

  /** A direct hit, or a rule whose premise needs no userset of `avoid`. */
  ghost predicate Supported(a: Authorization, s: ObjectRef, u: UsersetRef, avoid: set<UsersetRef>) {
    Hit(a, s, u) || exists v :: Edge(a, u, v) && Reaches(a, s, v, avoid)
  }

  /** A shortest derivation does not come back to where it started. */
  lemma {:induction false} ShortestIsAcyclic(
    a: Authorization, s: ObjectRef, u: UsersetRef, avoid: set<UsersetRef>, n: nat)
    requires Grants(a, s, u, avoid, n)
    ensures Supported(a, s, u, avoid + {u})
    decreases n
  {
    if !Hit(a, s, u) {
      var v :| Edge(a, u, v) && Grants(a, s, v, avoid, n - 1);
      AvoidsOrContains(a, s, v, u, avoid, n - 1);
      if !Grants(a, s, v, avoid + {u}, n - 1) {
        var m: nat :| m <= n - 1 && Grants(a, s, u, avoid, m);
        ShortestIsAcyclic(a, s, u, avoid, m);
      }
    }
  }

  lemma {:induction false} GrantsShrink(
    a: Authorization, s: ObjectRef, w: UsersetRef, u: UsersetRef, avoid: set<UsersetRef>, n: nat)
    requires Grants(a, s, w, avoid + {u}, n)
    ensures Grants(a, s, w, avoid, n)
    decreases n
  {
    if !Hit(a, s, w) {
      var v :| Edge(a, w, v) && Grants(a, s, v, avoid + {u}, n - 1);
      GrantsShrink(a, s, v, u, avoid, n - 1);
    }
  }

  lemma ReachesIffSupported(a: Authorization, s: ObjectRef, u: UsersetRef, avoid: set<UsersetRef>)
    requires u !in avoid
    ensures Reaches(a, s, u, avoid) <==> Supported(a, s, u, avoid + {u})
  {
    if Reaches(a, s, u, avoid) {
      var n: nat :| Grants(a, s, u, avoid, n);
      ShortestIsAcyclic(a, s, u, avoid, n);
    }
    if Hit(a, s, u) {
      assert Grants(a, s, u, avoid, 1);
    } else if Supported(a, s, u, avoid + {u}) {
      var v :| Edge(a, u, v) && Reaches(a, s, v, avoid + {u});
      var n: nat :| Grants(a, s, v, avoid + {u}, n);
      GrantsShrink(a, s, v, u, avoid, n);
      assert Grants(a, s, u, avoid, n + 1);
    }
  }

  lemma SupportedIsMember(a: Authorization, s: ObjectRef, u: UsersetRef)
    requires Supported(a, s, u, {})
    ensures Member(a, s, u)
  {
    MemberIsLeastFixpoint(a, s);
    if !Hit(a, s, u) {
      var v :| Edge(a, u, v) && Reaches(a, s, v, {});
      assert Member(a, s, v);
      assert v in iset w | Member(a, s, w);
    } else {
      assert u in iset w | Member(a, s, w);
    }
  }

  // ---- The search is correct

  ghost predicate MemoSound(a: Authorization, allowed: set<(ObjectRef, UsersetRef)>) {
    forall s, u :: (s, u) in allowed ==> Member(a, s, u)
  }

  /** What a positive answer means: with a memo the path may leave the part of the graph still open. */
  ghost predicate Yes(a: Authorization, cap: nat, s: ObjectRef, u: UsersetRef, avoid: set<UsersetRef>) {
    Reaches(a, s, u, if cap == 0 then avoid else {})
  }

  ghost predicate Intact(a: Authorization, st: Search, st': Search) {
    st'.visited == st.visited && st.steps <= st'.steps && MemoSound(a, st'.allowed)
  }

  lemma TargetsAreEdges(a: Authorization, resource: ObjectRef, tupleRelation: string, targetRelation: string, v: UsersetRef)
    ensures v in Targets(a, resource, tupleRelation, targetRelation)
       <==> RuleEdge(a, resource, TupleToUserset(tupleRelation, targetRelation), v)
  {
    var m := Members(a.tuples, UsersetRef(resource, tupleRelation));
    var objects := TargetObjects(m);
    var targets := Targets(a, resource, tupleRelation, targetRelation);
    assert |targets| == |objects|;
    if v in targets {
      var i :| 0 <= i < |targets| && targets[i] == v;
      assert objects[i] == v.resource;
      if i >= |m.objects| {
        assert m.usersets[i - |m.objects|].resource == v.resource;
      }
    }
    if RuleEdge(a, resource, TupleToUserset(tupleRelation, targetRelation), v) {
      if v.resource in m.objects {
        var i :| 0 <= i < |m.objects| && m.objects[i] == v.resource;
        assert targets[i] == v;
      } else {
        var i :| 0 <= i < |m.usersets| && m.usersets[i].resource == v.resource;
        assert objects[|m.objects| + i] == v.resource;
        assert targets[|m.objects| + i] == v;
      }
    }
  }

  lemma {:induction false} ResolveCorrect(a: Authorization, cap: nat, u: UsersetRef, s: ObjectRef, depth: nat, st: Search)
    requires MemoSound(a, st.allowed)
    requires Resolve(a, cap, u, s, depth, st).Ok?
    ensures var (granted, st') := Resolve(a, cap, u, s, depth, st).value;
            && Intact(a, st, st') && st.steps < st'.steps
            && (granted ==> Yes(a, cap, s, u, st.visited))
            && (!granted ==> !Reaches(a, s, u, st.visited))
    decreases Remaining(a, depth), 3, 0
  {
    var st1 := Tick(a, st).value;
    if !(cap != 0 && (s, u) in st1.allowed) && u !in st1.visited {
      var relation := Lookup(a.schema, u.resource.namespace, u.relation).value;
      var inner := st1.(visited := st1.visited + {u});
      ExpandCorrect(a, cap, relation, u, s, depth, inner);
      ReachesIffSupported(a, s, u, st.visited);
      var (granted, st2) := Expand(a, cap, relation, u, s, depth, inner).value;
      if granted && cap != 0 {
        SupportedIsMember(a, s, u);
      }
      assert Leave(cap, u, s, granted, st2).visited == st.visited;
    }
  }

  lemma {:induction false} ExpandCorrect(
    a: Authorization, cap: nat, relation: CompiledRelation, u: UsersetRef, s: ObjectRef, depth: nat, st: Search)
    requires MemoSound(a, st.allowed) && depth < a.limits.maxDepth
    requires Lookup(a.schema, u.resource.namespace, u.relation) == Some(relation)
    requires Expand(a, cap, relation, u, s, depth, st).Ok?
    ensures var (granted, st') := Expand(a, cap, relation, u, s, depth, st).value;
            && Intact(a, st, st')
            && (granted ==> Supported(a, s, u, if cap == 0 then st.visited else {}))
            && (!granted ==> !Supported(a, s, u, st.visited))
    decreases Remaining(a, depth), 2, 0
  {
    match relation
    case Direct(_) =>
      if !Hit(a, s, u) {
        EachCorrect(a, cap, Members(a.tuples, u).usersets, s, depth, st);
      }
    case Permission(rules) =>
      RulesCorrect(a, cap, rules, u.resource, s, depth, st);
  }

  lemma {:induction false} EachCorrect(
    a: Authorization, cap: nat, targets: seq<UsersetRef>, s: ObjectRef, depth: nat, st: Search)
    requires MemoSound(a, st.allowed) && depth < a.limits.maxDepth
    requires ResolveEach(a, cap, targets, s, depth, st).Ok?
    ensures var (granted, st') := ResolveEach(a, cap, targets, s, depth, st).value;
            && Intact(a, st, st')
            && (granted ==> exists v :: v in targets && Yes(a, cap, s, v, st.visited))
            && (!granted ==> forall v :: v in targets ==> !Reaches(a, s, v, st.visited))
    decreases Remaining(a, depth), 0, |targets|
  {
    if targets != [] {
      var st1 := Tick(a, st).value;
      ResolveCorrect(a, cap, targets[0], s, depth + 1, st1);
      var (granted, st2) := Resolve(a, cap, targets[0], s, depth + 1, st1).value;
      if granted {
        assert targets[0] in targets && Yes(a, cap, s, targets[0], st.visited);
      } else {
        EachCorrect(a, cap, targets[1..], s, depth, st2);
        assert forall v :: v in targets <==> v == targets[0] || v in targets[1..];
      }
    }
  }

  lemma {:induction false} RulesCorrect(
    a: Authorization, cap: nat, rules: seq<RewriteRule>, resource: ObjectRef, s: ObjectRef, depth: nat, st: Search)
    requires MemoSound(a, st.allowed) && depth < a.limits.maxDepth
    requires ResolveRules(a, cap, rules, resource, s, depth, st).Ok?
    ensures var (granted, st') := ResolveRules(a, cap, rules, resource, s, depth, st).value;
            && Intact(a, st, st')
            && (granted ==> exists i, v :: 0 <= i < |rules| && RuleEdge(a, resource, rules[i], v) && Yes(a, cap, s, v, st.visited))
            && (!granted ==> forall i, v :: 0 <= i < |rules| && RuleEdge(a, resource, rules[i], v) ==> !Reaches(a, s, v, st.visited))
    decreases Remaining(a, depth), 1, |rules|
  {
    if rules != [] {
      var st1 := Tick(a, st).value;
      var first := FirstRule(a, cap, rules[0], resource, s, depth, st1);
      FirstRuleCorrect(a, cap, rules[0], resource, s, depth, st1);
      if first.value.0 {
        var v :| RuleEdge(a, resource, rules[0], v) && Yes(a, cap, s, v, st.visited);
      } else {
        RulesCorrect(a, cap, rules[1..], resource, s, depth, first.value.1);
        if ResolveRules(a, cap, rules[1..], resource, s, depth, first.value.1).value.0 {
          var i, v :| 0 <= i < |rules[1..]| && RuleEdge(a, resource, rules[1..][i], v) && Yes(a, cap, s, v, st.visited);
          assert rules[i + 1] == rules[1..][i];
        } else {
          forall i, v | 0 <= i < |rules| && RuleEdge(a, resource, rules[i], v)
            ensures !Reaches(a, s, v, st.visited)
          {
            if i > 0 {
              assert rules[1..][i - 1] == rules[i];
            }
          }
        }
      }
    }
  }

  function FirstRule(a: Authorization, cap: nat, rule: RewriteRule, resource: ObjectRef, s: ObjectRef, depth: nat, st: Search): Found
    requires depth < a.limits.maxDepth
  {
    match rule
    case Inherit(relation) => Resolve(a, cap, UsersetRef(resource, relation), s, depth + 1, st)
    case TupleToUserset(tupleRelation, targetRelation) =>
      ResolveEach(a, cap, Targets(a, resource, tupleRelation, targetRelation), s, depth, st)
  }

  lemma {:induction false} FirstRuleCorrect(
    a: Authorization, cap: nat, rule: RewriteRule, resource: ObjectRef, s: ObjectRef, depth: nat, st: Search)
    requires MemoSound(a, st.allowed) && depth < a.limits.maxDepth
    requires FirstRule(a, cap, rule, resource, s, depth, st).Ok?
    ensures var (granted, st') := FirstRule(a, cap, rule, resource, s, depth, st).value;
            && Intact(a, st, st')
            && (granted ==> exists v :: RuleEdge(a, resource, rule, v) && Yes(a, cap, s, v, st.visited))
            && (!granted ==> forall v :: RuleEdge(a, resource, rule, v) ==> !Reaches(a, s, v, st.visited))
    decreases Remaining(a, depth), 1, 0
  {
    match rule
    case Inherit(relation) =>
      ResolveCorrect(a, cap, UsersetRef(resource, relation), s, depth + 1, st);
      assert RuleEdge(a, resource, rule, UsersetRef(resource, relation));
    case TupleToUserset(tupleRelation, targetRelation) =>
      EachCorrect(a, cap, Targets(a, resource, tupleRelation, targetRelation), s, depth, st);
      forall v
        ensures v in Targets(a, resource, tupleRelation, targetRelation) <==> RuleEdge(a, resource, rule, v)
      {
        TargetsAreEdges(a, resource, tupleRelation, targetRelation, v);
      }
  }

  /** Whenever a check answers, it answers membership in the least fixpoint. */
  lemma CheckDecidesMembership(a: Authorization, c: Check)
    requires CheckOne(a, c).Ok?
    ensures CheckOne(a, c).value <==> Member(a, c.subject, UsersetRef(c.resource, c.relation))
  {
    ResolveCorrect(a, 0, UsersetRef(c.resource, c.relation), c.subject, 0, Search({}, {}, 0));
  }

  // ---- The memo only saves work

  /** A memo run next to a run without one: same path so far, no more steps, a sound memo. */
  ghost predicate Beside(a: Authorization, plain: Search, memo: Search) {
    && memo.visited == plain.visited && memo.steps <= plain.steps
    && MemoSound(a, plain.allowed) && MemoSound(a, memo.allowed)
  }

  /** The memo run also answers, in no more steps, and yes at least where the plain run does. */
  ghost predicate Tracks(a: Authorization, plain: Found, memo: Found) {
    plain.Ok? ==>
      && memo.Ok? && Beside(a, plain.value.1, memo.value.1)
      && (plain.value.0 ==> memo.value.0)
  }

  lemma {:induction false} MemoTracks(
    a: Authorization, cap: nat, u: UsersetRef, s: ObjectRef, depth: nat, plain: Search, memo: Search)
    requires Beside(a, plain, memo)
    ensures Tracks(a, Resolve(a, 0, u, s, depth, plain), Resolve(a, cap, u, s, depth, memo))
    decreases Remaining(a, depth), 3, 0
  {
    if Resolve(a, 0, u, s, depth, plain).Ok? {
      var relation := Lookup(a.schema, u.resource.namespace, u.relation);
      var plain1, memo1 := Tick(a, plain).value, Tick(a, memo).value;
      if !(cap != 0 && (s, u) in memo.allowed) && u !in memo.visited {
        var inner := plain1.(visited := plain1.visited + {u});
        MemoTracksExpand(a, cap, relation.value, u, s, depth, inner, memo1.(visited := memo1.visited + {u}));
      }
      ResolveCorrect(a, 0, u, s, depth, plain);
      ResolveCorrect(a, cap, u, s, depth, memo);
    }
  }

  lemma {:induction false} MemoTracksExpand(
    a: Authorization, cap: nat, relation: CompiledRelation, u: UsersetRef, s: ObjectRef, depth: nat,
    plain: Search, memo: Search)
    requires Beside(a, plain, memo) && depth < a.limits.maxDepth
    ensures Tracks(a, Expand(a, 0, relation, u, s, depth, plain), Expand(a, cap, relation, u, s, depth, memo))
    decreases Remaining(a, depth), 2, 0
  {
    match relation
    case Direct(_) => MemoTracksEach(a, cap, Members(a.tuples, u).usersets, s, depth, plain, memo);
    case Permission(rules) => MemoTracksRules(a, cap, rules, u.resource, s, depth, plain, memo);
  }

  lemma {:induction false} MemoTracksEach(
    a: Authorization, cap: nat, targets: seq<UsersetRef>, s: ObjectRef, depth: nat, plain: Search, memo: Search)
    requires Beside(a, plain, memo) && depth < a.limits.maxDepth
    ensures Tracks(a, ResolveEach(a, 0, targets, s, depth, plain), ResolveEach(a, cap, targets, s, depth, memo))
    decreases Remaining(a, depth), 0, |targets|
  {
    if targets != [] && ResolveEach(a, 0, targets, s, depth, plain).Ok? {
      var plain1, memo1 := Tick(a, plain).value, Tick(a, memo).value;
      MemoTracks(a, cap, targets[0], s, depth + 1, plain1, memo1);
      var (yes, plain2) := Resolve(a, 0, targets[0], s, depth + 1, plain1).value;
      var (yes', memo2) := Resolve(a, cap, targets[0], s, depth + 1, memo1).value;
      if !yes' {
        MemoTracksEach(a, cap, targets[1..], s, depth, plain2, memo2);
      } else if !yes {
        EachCorrect(a, 0, targets[1..], s, depth, plain2);
      }
    }
  }

  lemma {:induction false} MemoTracksRules(
    a: Authorization, cap: nat, rules: seq<RewriteRule>, resource: ObjectRef, s: ObjectRef, depth: nat,
    plain: Search, memo: Search)
    requires Beside(a, plain, memo) && depth < a.limits.maxDepth
    ensures Tracks(a, ResolveRules(a, 0, rules, resource, s, depth, plain),
                      ResolveRules(a, cap, rules, resource, s, depth, memo))
    decreases Remaining(a, depth), 1, |rules|
  {
    if rules != [] && ResolveRules(a, 0, rules, resource, s, depth, plain).Ok? {
      var plain1, memo1 := Tick(a, plain).value, Tick(a, memo).value;
      match rules[0] {
        case Inherit(relation) => MemoTracks(a, cap, UsersetRef(resource, relation), s, depth + 1, plain1, memo1);
        case TupleToUserset(tupleRelation, targetRelation) =>
          MemoTracksEach(a, cap, Targets(a, resource, tupleRelation, targetRelation), s, depth, plain1, memo1);
      }
      var (yes, plain2) := FirstRule(a, 0, rules[0], resource, s, depth, plain1).value;
      var (yes', memo2) := FirstRule(a, cap, rules[0], resource, s, depth, memo1).value;
      if !yes' {
        MemoTracksRules(a, cap, rules[1..], resource, s, depth, plain2, memo2);
      } else if !yes {
        RulesCorrect(a, 0, rules[1..], resource, s, depth, plain2);
      }
    }
  }

  /** With any sound memo, of any capacity and however full, a check that answers alone answers the same. */
  lemma MemoKeepsAnswer(a: Authorization, c: Check, allowed: set<(ObjectRef, UsersetRef)>, cap: nat)
    requires MemoSound(a, allowed)
    ensures CheckWithMemo(a, c, allowed, cap).Ok? ==>
              && MemoSound(a, CheckWithMemo(a, c, allowed, cap).value.1)
              && (CheckWithMemo(a, c, allowed, cap).value.0 <==> Member(a, c.subject, UsersetRef(c.resource, c.relation)))
    ensures CheckOne(a, c).Ok? ==>
              CheckWithMemo(a, c, allowed, cap).Ok? && CheckWithMemo(a, c, allowed, cap).value.0 == CheckOne(a, c).value
  {
    var u := UsersetRef(c.resource, c.relation);
    if CheckWithMemo(a, c, allowed, cap).Ok? {
      ResolveCorrect(a, cap, u, c.subject, 0, Search({}, allowed, 0));
    }
    if CheckOne(a, c).Ok? {
      MemoTracks(a, cap, u, c.subject, 0, Search({}, {}, 0), Search({}, allowed, 0));
      ResolveCorrect(a, cap, u, c.subject, 0, Search({}, allowed, 0));
      CheckDecidesMembership(a, c);
    }
  }

  ghost predicate AnswersMembership(a: Authorization, checks: seq<Check>, answers: seq<bool>) {
    && |answers| == |checks|
    && forall i :: 0 <= i < |checks| ==>
         (answers[i] <==> Member(a, checks[i].subject, UsersetRef(checks[i].resource, checks[i].relation)))
  }

  lemma {:induction false} BatchFrom(a: Authorization, checks: seq<Check>, allowed: set<(ObjectRef, UsersetRef)>, cap: nat)
    requires MemoSound(a, allowed)
    ensures CheckFrom(a, checks, allowed, cap).Ok? ==> AnswersMembership(a, checks, CheckFrom(a, checks, allowed, cap).value)
    ensures (forall i :: 0 <= i < |checks| ==> CheckOne(a, checks[i]).Ok?) ==> CheckFrom(a, checks, allowed, cap).Ok?
    decreases |checks|
  {
    if checks != [] {
      MemoKeepsAnswer(a, checks[0], allowed, cap);
      var first := CheckWithMemo(a, checks[0], allowed, cap);
      if first.Ok? {
        BatchFrom(a, checks[1..], first.value.1, cap);
      }
    }
  }

  /** A batch answers whenever every check alone does, with the same answers, and never answers wrongly. */
  lemma BatchRefinesChecks(a: Authorization, checks: seq<Check>)
    ensures CheckMany(a, checks).Ok? ==> AnswersMembership(a, checks, CheckMany(a, checks).value)
    ensures (forall i :: 0 <= i < |checks| ==> CheckOne(a, checks[i]).Ok?) ==>
              && CheckMany(a, checks).Ok? && |CheckMany(a, checks).value| == |checks|
              && forall i :: 0 <= i < |checks| ==> CheckMany(a, checks).value[i] == CheckOne(a, checks[i]).value
  {
    BatchFrom(a, checks, {}, MemoCapacity(a, |checks|));
    forall i | 0 <= i < |checks| && CheckOne(a, checks[i]).Ok?
      ensures CheckOne(a, checks[i]).value <==> Member(a, checks[i].subject, UsersetRef(checks[i].resource, checks[i].relation))
    {
      CheckDecidesMembership(a, checks[i]);
    }
  }

  // ---- Closed world

  /** In a built view, rules and tuples lead only to declared relations. */
  lemma EdgesAreDeclared(a: Authorization, tuples: seq<Tuple>, u: UsersetRef, v: UsersetRef)
    requires Built(a, tuples) && Edge(a, u, v)
    ensures Declared(a.schema, v)
  {
    match Lookup(a.schema, u.resource.namespace, u.relation)
    case Some(Direct(_)) =>
      var t := Tuple(u.resource, u.relation, Userset(v));
      assert Indexed(a.tuples, t);
      assert TupleOk(a.schema, t);
    case Some(Permission(rules)) =>
      assert NamespaceClosed(a.schema, u.resource.namespace);
      var i :| 0 <= i < |rules| && RuleEdge(a, u.resource, rules[i], v);
      assert RuleClosed(a.schema, u.resource.namespace, rules[i]);
      if rules[i].TupleToUserset? {
        LinkedIsDeclared(a, tuples, u.resource, rules[i].tupleRelation, rules[i].targetRelation, v.resource);
      }
  }

  lemma LinkedIsDeclared(
    a: Authorization, tuples: seq<Tuple>, resource: ObjectRef, tupleRelation: string, targetRelation: string, o: ObjectRef)
    requires Built(a, tuples) && Linked(a, resource, tupleRelation, o)
    requires RuleClosed(a.schema, resource.namespace, TupleToUserset(tupleRelation, targetRelation))
    ensures Lookup(a.schema, o.namespace, targetRelation).Some?
  {
    var m := Members(a.tuples, UsersetRef(resource, tupleRelation));
    var t: Tuple;
    if o in m.objects {
      t := Tuple(resource, tupleRelation, Object(o));
    } else {
      var i :| 0 <= i < |m.usersets| && m.usersets[i].resource == o;
      t := Tuple(resource, tupleRelation, Userset(m.usersets[i]));
    }
    assert Indexed(a.tuples, t);
    assert TupleOk(a.schema, t);
    var source := Lookup(a.schema, resource.namespace, tupleRelation).value;
    var selector :| selector in source.allowed && SelectorMatches(selector, t);
    assert TargetClosed(a.schema, selector, targetRelation);
  }

  ghost predicate OnlyLimits(found: Found) {
    found.Err? ==> found.error.EvaluationLimit?
  }

  ghost predicate AllDeclared(a: Authorization, targets: seq<UsersetRef>) {
    forall i :: 0 <= i < |targets| ==> Declared(a.schema, targets[i])
  }

  lemma {:induction false} ResolveFailsOnLimits(
    a: Authorization, tuples: seq<Tuple>, cap: nat, u: UsersetRef, s: ObjectRef, depth: nat, st: Search)
    requires Built(a, tuples) && Declared(a.schema, u)
    ensures OnlyLimits(Resolve(a, cap, u, s, depth, st))
    decreases Remaining(a, depth), 3, 0
  {
    if depth < a.limits.maxDepth && Tick(a, st).Ok? {
      var inner := Tick(a, st).value.(visited := st.visited + {u});
      match Lookup(a.schema, u.resource.namespace, u.relation)
      case Some(Direct(_)) =>
        var usersets := Members(a.tuples, u).usersets;
        forall i | 0 <= i < |usersets|
          ensures Declared(a.schema, usersets[i])
        {
          EdgesAreDeclared(a, tuples, u, usersets[i]);
        }
        EachFailsOnLimits(a, tuples, cap, usersets, s, depth, inner);
      case Some(Permission(rules)) =>
        forall i, v | 0 <= i < |rules| && RuleEdge(a, u.resource, rules[i], v)
          ensures Declared(a.schema, v)
        {
          EdgesAreDeclared(a, tuples, u, v);
        }
        RulesFailOnLimits(a, tuples, cap, rules, u.resource, s, depth, inner);
    }
  }

  lemma {:induction false} EachFailsOnLimits(
    a: Authorization, tuples: seq<Tuple>, cap: nat, targets: seq<UsersetRef>, s: ObjectRef, depth: nat, st: Search)
    requires Built(a, tuples) && depth < a.limits.maxDepth && AllDeclared(a, targets)
    ensures OnlyLimits(ResolveEach(a, cap, targets, s, depth, st))
    decreases Remaining(a, depth), 0, |targets|
  {
    if targets != [] && Tick(a, st).Ok? {
      ResolveFailsOnLimits(a, tuples, cap, targets[0], s, depth + 1, Tick(a, st).value);
      var first := Resolve(a, cap, targets[0], s, depth + 1, Tick(a, st).value);
      if first.Ok? {
        EachFailsOnLimits(a, tuples, cap, targets[1..], s, depth, first.value.1);
      }
    }
  }

  lemma {:induction false} RulesFailOnLimits(
    a: Authorization, tuples: seq<Tuple>, cap: nat, rules: seq<RewriteRule>, resource: ObjectRef, s: ObjectRef,
    depth: nat, st: Search)
    requires Built(a, tuples) && depth < a.limits.maxDepth
    requires forall i, v :: 0 <= i < |rules| && RuleEdge(a, resource, rules[i], v) ==> Declared(a.schema, v)
    ensures OnlyLimits(ResolveRules(a, cap, rules, resource, s, depth, st))
    decreases Remaining(a, depth), 1, |rules|
  {
    if rules != [] && Tick(a, st).Ok? {
      var st1 := Tick(a, st).value;
      match rules[0] {
        case Inherit(relation) =>
          assert RuleEdge(a, resource, rules[0], UsersetRef(resource, relation));
          ResolveFailsOnLimits(a, tuples, cap, UsersetRef(resource, relation), s, depth + 1, st1);
        case TupleToUserset(tupleRelation, targetRelation) =>
          var targets := Targets(a, resource, tupleRelation, targetRelation);
          forall i | 0 <= i < |targets|
            ensures Declared(a.schema, targets[i])
          {
            TargetsAreEdges(a, resource, tupleRelation, targetRelation, targets[i]);
          }
          EachFailsOnLimits(a, tuples, cap, targets, s, depth, st1);
      }
      var first := FirstRule(a, cap, rules[0], resource, s, depth, st1);
      if first.Ok? {
        assert forall i :: 0 <= i < |rules[1..]| ==> rules[1..][i] == rules[i + 1];
        RulesFailOnLimits(a, tuples, cap, rules[1..], resource, s, depth, first.value.1);
      }
    }
  }

  /** In a built view a well-formed check on a declared relation can fail only on its depth or step limit. */
  lemma ClosedWorld(a: Authorization, tuples: seq<Tuple>, c: Check)
    requires Built(a, tuples) && WellFormedCheck(a, c)
    ensures CheckOne(a, c).Err? ==> CheckOne(a, c).error.EvaluationLimit?
  {
    ResolveFailsOnLimits(a, tuples, 0, UsersetRef(c.resource, c.relation), c.subject, 0, Search({}, {}, 0));
  }

  lemma {:induction false} BatchFailsOnLimits(
    a: Authorization, tuples: seq<Tuple>, checks: seq<Check>, allowed: set<(ObjectRef, UsersetRef)>, cap: nat)
    requires Built(a, tuples) && forall i :: 0 <= i < |checks| ==> WellFormedCheck(a, checks[i])
    ensures CheckFrom(a, checks, allowed, cap).Err? ==> CheckFrom(a, checks, allowed, cap).error.EvaluationLimit?
    decreases |checks|
  {
    if checks != [] {
      var c := checks[0];
      ResolveFailsOnLimits(a, tuples, cap, UsersetRef(c.resource, c.relation), c.subject, 0, Search({}, allowed, 0));
      var first := CheckWithMemo(a, c, allowed, cap);
      if first.Ok? {
        BatchFailsOnLimits(a, tuples, checks[1..], first.value.1, cap);
      }
    }
  }

  /** So can a batch of them, whatever the memo holds on the way. */
  lemma ClosedWorldBatch(a: Authorization, tuples: seq<Tuple>, checks: seq<Check>)
    requires Built(a, tuples) && forall i :: 0 <= i < |checks| ==> WellFormedCheck(a, checks[i])
    ensures CheckMany(a, checks).Err? ==> CheckMany(a, checks).error.EvaluationLimit?
  {
    BatchFailsOnLimits(a, tuples, checks, {}, MemoCapacity(a, |checks|));
  }
}
