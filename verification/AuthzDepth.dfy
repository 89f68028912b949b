/** When the depth limit cannot be what stops a check. */
module AuthzDepth {
  import opened Prelude
  import opened AuthzModel
  import opened AuthzSchema
  import opened AuthzEvaluator
  import opened AuthzTheorems

  /** A set of usersets that no edge leaves. */
  ghost predicate Region(a: Authorization, region: set<UsersetRef>) {
    forall u, v :: u in region && Edge(a, u, v) ==> v in region
  }

  /** A path of that many usersets inside a region too small to exhaust the depth limit. */
  ghost predicate Inside(a: Authorization, region: set<UsersetRef>, length: nat, st: Search) {
    Region(a, region) && |region| < a.limits.maxDepth && st.visited <= region && |st.visited| == length
  }

  /** The depth limit did not fire, and an answer leaves the path as it was. */
  ghost predicate Spared(found: Found, st: Search) {
    match found
    case Ok((_, st')) => st'.visited == st.visited
    case Err(e) => e != EvaluationLimit(Depth)
  }

  lemma InsideFits(a: Authorization, region: set<UsersetRef>, length: nat, st: Search)
    requires Inside(a, region, length, st)
    ensures length < a.limits.maxDepth
  {
    SmallerWithin(st.visited, region);
  }

  lemma {:induction false} ResolveSpared(
    a: Authorization, region: set<UsersetRef>, cap: nat, u: UsersetRef, s: ObjectRef, depth: nat, st: Search)
    requires Inside(a, region, depth, st) && u in region
    ensures Spared(Resolve(a, cap, u, s, depth, st), st)
    decreases Remaining(a, depth), 3, 0
  {
    InsideFits(a, region, depth, st);
    var relation := Lookup(a.schema, u.resource.namespace, u.relation);
    if Tick(a, st).Ok? && u !in st.visited && relation.Some? {
      var inner := Tick(a, st).value.(visited := st.visited + {u});
      ExpandSpared(a, region, cap, relation.value, u, s, depth, inner);
      assert inner.visited - {u} == st.visited;
    }
  }

  lemma {:induction false} ExpandSpared(
    a: Authorization, region: set<UsersetRef>, cap: nat, relation: CompiledRelation, u: UsersetRef, s: ObjectRef,
    depth: nat, st: Search)
    requires Inside(a, region, depth + 1, st) && u in region && depth < a.limits.maxDepth
    requires Lookup(a.schema, u.resource.namespace, u.relation) == Some(relation)
    ensures Spared(Expand(a, cap, relation, u, s, depth, st), st)
    decreases Remaining(a, depth), 2, 0
  {
    match relation
    case Direct(_) =>
      var usersets := Members(a.tuples, u).usersets;
      assert forall v :: v in usersets ==> Edge(a, u, v);
      EachSpared(a, region, cap, usersets, s, depth, st);
    case Permission(rules) =>
      assert forall i, v :: 0 <= i < |rules| && RuleEdge(a, u.resource, rules[i], v) ==> Edge(a, u, v);
      RulesSpared(a, region, cap, rules, u.resource, s, depth, st);
  }

  lemma {:induction false} EachSpared(
    a: Authorization, region: set<UsersetRef>, cap: nat, targets: seq<UsersetRef>, s: ObjectRef, depth: nat, st: Search)
    requires Inside(a, region, depth + 1, st) && depth < a.limits.maxDepth
    requires forall v :: v in targets ==> v in region
    ensures Spared(ResolveEach(a, cap, targets, s, depth, st), st)
    decreases Remaining(a, depth), 0, |targets|
  {
    if targets != [] && Tick(a, st).Ok? {
      var st1 := Tick(a, st).value;
      ResolveSpared(a, region, cap, targets[0], s, depth + 1, st1);
      var first := Resolve(a, cap, targets[0], s, depth + 1, st1);
      if first.Ok? {
        EachSpared(a, region, cap, targets[1..], s, depth, first.value.1);
      }
    }
  }

  lemma {:induction false} FirstRuleSpared(
    a: Authorization, region: set<UsersetRef>, cap: nat, rule: RewriteRule, resource: ObjectRef, s: ObjectRef,
    depth: nat, st: Search)
    requires Inside(a, region, depth + 1, st) && depth < a.limits.maxDepth
    requires forall v :: RuleEdge(a, resource, rule, v) ==> v in region
    ensures Spared(FirstRule(a, cap, rule, resource, s, depth, st), st)
    decreases Remaining(a, depth), 1, 0
  {
    match rule
    case Inherit(relation) =>
      assert RuleEdge(a, resource, rule, UsersetRef(resource, relation));
      ResolveSpared(a, region, cap, UsersetRef(resource, relation), s, depth + 1, st);
    case TupleToUserset(tupleRelation, targetRelation) =>
      var targets := Targets(a, resource, tupleRelation, targetRelation);
      forall v | v in targets
        ensures v in region
      {
        TargetsAreEdges(a, resource, tupleRelation, targetRelation, v);
      }
      EachSpared(a, region, cap, targets, s, depth, st);
  }

  lemma {:induction false} RulesSpared(
    a: Authorization, region: set<UsersetRef>, cap: nat, rules: seq<RewriteRule>, resource: ObjectRef, s: ObjectRef,
    depth: nat, st: Search)
    requires Inside(a, region, depth + 1, st) && depth < a.limits.maxDepth
    requires forall i, v :: 0 <= i < |rules| && RuleEdge(a, resource, rules[i], v) ==> v in region
    ensures Spared(ResolveRules(a, cap, rules, resource, s, depth, st), st)
    decreases Remaining(a, depth), 1, |rules|
  {
    if rules != [] && Tick(a, st).Ok? {
      var st1 := Tick(a, st).value;
      FirstRuleSpared(a, region, cap, rules[0], resource, s, depth, st1);
      var first := FirstRule(a, cap, rules[0], resource, s, depth, st1);
      if first.Ok? {
        assert forall i :: 0 <= i < |rules[1..]| ==> rules[1..][i] == rules[i + 1];
        RulesSpared(a, region, cap, rules[1..], resource, s, depth, first.value.1);
      }
    }
  }

  /** A check whose userset lies in a region of fewer usersets than the depth limit fails only on its step limit. */
  lemma SmallRegionNeedsOnlySteps(a: Authorization, tuples: seq<Tuple>, region: set<UsersetRef>, c: Check)
    requires Built(a, tuples) && WellFormedCheck(a, c)
    requires Region(a, region) && UsersetRef(c.resource, c.relation) in region && |region| < a.limits.maxDepth
    ensures CheckOne(a, c).Err? ==> CheckOne(a, c).error.EvaluationLimit? && CheckOne(a, c).error.kind.Step?
  {
    ClosedWorld(a, tuples, c);
    ResolveSpared(a, region, 0, UsersetRef(c.resource, c.relation), c.subject, 0, Search({}, {}, 0));
  }

  lemma {:induction false} BatchSpared(
    a: Authorization, region: set<UsersetRef>, checks: seq<Check>, allowed: set<(ObjectRef, UsersetRef)>, cap: nat)
    requires Region(a, region) && |region| < a.limits.maxDepth
    requires forall i :: 0 <= i < |checks| ==> UsersetRef(checks[i].resource, checks[i].relation) in region
    ensures CheckFrom(a, checks, allowed, cap).Err? ==> CheckFrom(a, checks, allowed, cap).error != EvaluationLimit(Depth)
    decreases |checks|
  {
    if checks != [] {
      var c := checks[0];
      ResolveSpared(a, region, cap, UsersetRef(c.resource, c.relation), c.subject, 0, Search({}, allowed, 0));
      var first := CheckWithMemo(a, c, allowed, cap);
      if first.Ok? {
        BatchSpared(a, region, checks[1..], first.value.1, cap);
      }
    }
  }

  /** So does a batch of them, whatever the memo holds on the way. */
  lemma SmallRegionBatchNeedsOnlySteps(a: Authorization, tuples: seq<Tuple>, region: set<UsersetRef>, checks: seq<Check>)
    requires Built(a, tuples) && forall i :: 0 <= i < |checks| ==> WellFormedCheck(a, checks[i])
    requires Region(a, region) && |region| < a.limits.maxDepth
    requires forall i :: 0 <= i < |checks| ==> UsersetRef(checks[i].resource, checks[i].relation) in region
    ensures CheckMany(a, checks).Err? ==> CheckMany(a, checks).error.EvaluationLimit? && CheckMany(a, checks).error.kind.Step?
  {
    ClosedWorldBatch(a, tuples, checks);
    BatchSpared(a, region, checks, {}, MemoCapacity(a, |checks|));
  }
}
