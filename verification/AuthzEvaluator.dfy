/** The tuple index and the bounded depth-first search over it. */
module AuthzEvaluator {
  import opened Prelude
  import opened AuthzModel
  import opened AuthzSchema

  /** Members of one direct relation, each ordered set as its ascending sequence. */
  datatype DirectSubjects = DirectSubjects(objects: seq<ObjectRef>, usersets: seq<UsersetRef>)

  type Index = map<UsersetRef, DirectSubjects>

  datatype Authorization = Authorization(schema: CompiledSchema, tuples: Index, limits: Limits)

  // ---- Tuples

  predicate SelectorMatches(a: AllowedSubject, t: Tuple) {
    match (a, t.subject)
    case (AnyObject(ns), Object(o)) => o.namespace == ns && !IsPublic(o)
    case (AnyUserset(ns, rel), Userset(u)) => u.resource.namespace == ns && u.relation == rel
    case (Exact(subject), _) => subject == t.subject
    case (SameResourceId(ns), Object(o)) => o.namespace == ns && o.id == t.resource.id && !IsPublic(o)
    case (Public, Object(o)) => IsPublic(o)
    case _ => false
  }

  predicate TupleOk(s: CompiledSchema, t: Tuple) {
    && ValidObject(t.resource) && ValidRelation(t.relation)
    && var relation := Lookup(s, t.resource.namespace, t.relation);
       && relation.Some? && relation.value.Direct?
       && ValidSubject(t.subject)
       && (t.subject.Userset? ==> Declared(s, t.subject.userset))
       && exists a :: a in relation.value.allowed && SelectorMatches(a, t)
  }

  function Members(index: Index, u: UsersetRef): DirectSubjects {
    if u in index then index[u] else DirectSubjects([], [])
  }

  predicate Indexed(index: Index, t: Tuple) {
    var members := Members(index, UsersetRef(t.resource, t.relation));
    match t.subject
    case Object(o) => o in members.objects
    case Userset(u) => u in members.usersets
  }

  /** The index holds exactly these tuples. */
  ghost predicate IndexOf(index: Index, tuples: seq<Tuple>) {
    forall t :: Indexed(index, t) <==> t in tuples
  }

  function AddTuple(index: Index, t: Tuple): Index {
    var userset := UsersetRef(t.resource, t.relation);
    var members := Members(index, userset);
    index[userset :=
      match t.subject
      case Object(o) => members.(objects := Insert(members.objects, o, ObjectLess))
      case Userset(u) => members.(usersets := Insert(members.usersets, u, UsersetLess))]
  }

  lemma AddTupleIndexes(index: Index, tuples: seq<Tuple>, t: Tuple)
    requires IndexOf(index, tuples)
    ensures IndexOf(AddTuple(index, t), tuples + [t])
  {
    forall x
      ensures Indexed(AddTuple(index, t), x) <==> x in tuples + [t]
    {
      assert Indexed(index, x) <==> x in tuples;
      assert x in tuples + [t] <==> x in tuples || x == t;
    }
  }

  /** Direct subjects are kept in the order in which they are searched. */
  ghost predicate IndexSorted(index: Index) {
    forall u :: u in index ==> Sorted(index[u].objects, ObjectLess) && Sorted(index[u].usersets, UsersetLess)
  }

  lemma AddTupleSorts(index: Index, t: Tuple)
    requires IndexSorted(index) && !Indexed(index, t)
    ensures IndexSorted(AddTuple(index, t))
  {
    KeptOrders();
    var members := Members(index, UsersetRef(t.resource, t.relation));
    match t.subject
    case Object(o) => InsertKeepsOrder(members.objects, o, ObjectLess);
    case Userset(u) => InsertKeepsOrder(members.usersets, u, UsersetLess);
  }

  predicate AllTuplesOk(s: CompiledSchema, tuples: seq<Tuple>) {
    forall i :: 0 <= i < |tuples| ==> TupleOk(s, tuples[i])
  }

  /** Indexing succeeds exactly on bounded, well-typed tuple sets without duplicates. */
  method IndexTuples(schema: CompiledSchema, tuples: seq<Tuple>, limits: Limits) returns (r: Result<Index, AuthError>)
    ensures r.Ok? <==> |tuples| <= limits.maxTuples && Distinct(tuples) && AllTuplesOk(schema, tuples)
    ensures r.Ok? ==> IndexOf(r.value, tuples) && IndexSorted(r.value)
    ensures r.Err? ==> r.error == InvalidSchema || r.error.InvalidTuple?
    ensures r.Err? && r.error.InvalidTuple? ==>
              && r.error.index < |tuples|
              && (!TupleOk(schema, tuples[r.error.index]) || tuples[r.error.index] in tuples[..r.error.index])
  {
    var index: Index := map[];
    for i := 0 to |tuples|
      invariant i <= limits.maxTuples && IndexOf(index, tuples[..i]) && IndexSorted(index)
      invariant Distinct(tuples[..i]) && AllTuplesOk(schema, tuples[..i])
    {
      if i + 1 > limits.maxTuples {
        return Err(InvalidSchema);
      }
      assert tuples[..i + 1] == tuples[..i] + [tuples[i]];
      if !TupleOk(schema, tuples[i]) || Indexed(index, tuples[i]) {
        return Err(InvalidTuple(i));
      }
      AddTupleIndexes(index, tuples[..i], tuples[i]);
      AddTupleSorts(index, tuples[i]);
      index := AddTuple(index, tuples[i]);
    }
    assert tuples[..|tuples|] == tuples;
    return Ok(index);
  }

  /** An authorization view: its schema is closed and its index is exactly its well-typed tuples. */
  ghost predicate Built(a: Authorization, tuples: seq<Tuple>) {
    Closed(a.schema) && IndexOf(a.tuples, tuples) && AllTuplesOk(a.schema, tuples)
  }

  lemma TupleAlike(s: CompiledSchema, s': CompiledSchema, t: Tuple)
    requires SameSchema(s, s') && TupleOk(s, t)
    ensures TupleOk(s', t)
  {
    var (r, r') := (Lookup(s, t.resource.namespace, t.relation), Lookup(s', t.resource.namespace, t.relation));
    assert SameRelation(r.value, r'.value);
    var a :| a in r.value.allowed && SelectorMatches(a, t);
    assert a in r'.value.allowed;
  }

  /** Every tuple names declared relations and subjects that the definition admits. */
  ghost predicate TuplesTyped(d: Schema, tuples: seq<Tuple>) {
    forall s :: SchemaCompiles(d, s) ==> AllTuplesOk(s, tuples)
  }

  /** One compiled form decides for all of them. */
  lemma TypedDecides(d: Schema, s: CompiledSchema, tuples: seq<Tuple>)
    requires SchemaCompiles(d, s)
    ensures AllTuplesOk(s, tuples) <==> TuplesTyped(d, tuples)
  {
    if AllTuplesOk(s, tuples) {
      forall s', i | SchemaCompiles(d, s') && 0 <= i < |tuples|
        ensures TupleOk(s', tuples[i])
      {
        CompiledAlike(d, s, s');
        TupleAlike(s, s', tuples[i]);
      }
    }
  }

  /** A view is built exactly from a compilable definition and a bounded, well-typed tuple set without duplicates. */
  method Build(d: Schema, tuples: seq<Tuple>, limits: Limits) returns (r: Result<Authorization, AuthError>)
    ensures r.Ok? ==> Built(r.value, tuples) && SchemaCompiles(d, r.value.schema) && r.value.limits == limits
    ensures r.Ok? <==> && ValidLimits(limits) && DefinitionsOk(d, limits) && ReferencesDeclared(d)
                       && |tuples| <= limits.maxTuples && Distinct(tuples) && TuplesTyped(d, tuples)
  {
    var compiled := Compile(d, limits);
    if compiled.Err? {
      return Err(compiled.error);
    }
    TypedDecides(d, compiled.value, tuples);
    var index := IndexTuples(compiled.value, tuples, limits);
    if index.Err? {
      return Err(index.error);
    }
    return Ok(Authorization(compiled.value, index.value, limits));
  }

  // ---- Search

  /** What the evaluator carries through the search. */
  datatype Search = Search(visited: set<UsersetRef>, allowed: set<(ObjectRef, UsersetRef)>, steps: nat)

  type Found = Result<(bool, Search), AuthError>

  function Tick(a: Authorization, st: Search): Result<Search, AuthError> {
    if st.steps + 1 > a.limits.maxSteps then Err(EvaluationLimit(Step)) else Ok(st.(steps := st.steps + 1))
  }

  function TargetObjects(m: DirectSubjects): seq<ObjectRef> {
    m.objects + seq(|m.usersets|, i requires 0 <= i < |m.usersets| => m.usersets[i].resource)
  }

  /** Where a tuple-to-userset rule leads from an object, in search order. */
  function Targets(a: Authorization, resource: ObjectRef, tupleRelation: string, targetRelation: string): seq<UsersetRef> {
    var objects := TargetObjects(Members(a.tuples, UsersetRef(resource, tupleRelation)));
    seq(|objects|, i requires 0 <= i < |objects| => UsersetRef(objects[i], targetRelation))
  }

  function Remaining(a: Authorization, depth: nat): nat {
    if depth < a.limits.maxDepth then a.limits.maxDepth - depth else 0
  }

  /** The search as a function; `cap` is the capacity of the positive memo, zero when there is none. */
  function Resolve(a: Authorization, cap: nat, u: UsersetRef, s: ObjectRef, depth: nat, st: Search): Found
    decreases Remaining(a, depth), 3, 0
  {
    if depth >= a.limits.maxDepth then Err(EvaluationLimit(Depth))
    else
      var st1 :- Tick(a, st);
      if cap != 0 && (s, u) in st1.allowed then Ok((true, st1))
      else if u in st1.visited then Ok((false, st1))
      else
        match Lookup(a.schema, u.resource.namespace, u.relation)
        case None => Err(InvalidCheck)
        case Some(relation) =>
          var (granted, st2) :- Expand(a, cap, relation, u, s, depth, st1.(visited := st1.visited + {u}));
          Ok((granted, Leave(cap, u, s, granted, st2)))
  }

  /** The userset leaves the path, and a positive answer enters the memo while there is room. */
  function Leave(cap: nat, u: UsersetRef, s: ObjectRef, granted: bool, st: Search): Search {
    var left := st.(visited := st.visited - {u});
    if granted && |left.allowed| < cap then left.(allowed := left.allowed + {(s, u)}) else left
  }

  function Expand(a: Authorization, cap: nat, relation: CompiledRelation, u: UsersetRef, s: ObjectRef, depth: nat,
                  st: Search): Found
    requires depth < a.limits.maxDepth
    decreases Remaining(a, depth), 2, 0
  {
    match relation
    case Direct(_) =>
      if s in Members(a.tuples, u).objects then Ok((true, st))
      else ResolveEach(a, cap, Members(a.tuples, u).usersets, s, depth, st)
    case Permission(rules) => ResolveRules(a, cap, rules, u.resource, s, depth, st)
  }

  function ResolveEach(a: Authorization, cap: nat, targets: seq<UsersetRef>, s: ObjectRef, depth: nat, st: Search): Found
    requires depth < a.limits.maxDepth
    decreases Remaining(a, depth), 0, |targets|
  {
    if targets == [] then Ok((false, st))
    else
      var st1 :- Tick(a, st);
      var (granted, st2) :- Resolve(a, cap, targets[0], s, depth + 1, st1);
      if granted then Ok((true, st2)) else ResolveEach(a, cap, targets[1..], s, depth, st2)
  }

  function ResolveRules(a: Authorization, cap: nat, rules: seq<RewriteRule>, resource: ObjectRef, s: ObjectRef,
                        depth: nat, st: Search): Found
    requires depth < a.limits.maxDepth
    decreases Remaining(a, depth), 1, |rules|
  {
    if rules == [] then Ok((false, st))
    else
      var st1 :- Tick(a, st);
      var (granted, st2) :-
        (match rules[0]
         case Inherit(relation) => Resolve(a, cap, UsersetRef(resource, relation), s, depth + 1, st1)
         case TupleToUserset(tupleRelation, targetRelation) =>
           ResolveEach(a, cap, Targets(a, resource, tupleRelation, targetRelation), s, depth, st1));
      if granted then Ok((true, st2)) else ResolveRules(a, cap, rules[1..], resource, s, depth, st2)
  }

  // ---- The evaluator

  class Evaluator {
    const authorization: Authorization
    const maxAllowed: nat
    var visited: set<UsersetRef>
    var allowed: set<(ObjectRef, UsersetRef)>
    var steps: nat

    ghost function View(): Search
      reads this
    {
      Search(visited, allowed, steps)
    }

    constructor (authorization: Authorization, allowed: set<(ObjectRef, UsersetRef)>, maxAllowed: nat)
      ensures this.authorization == authorization && this.maxAllowed == maxAllowed
      ensures View() == Search({}, allowed, 0)
    {
      this.authorization, this.maxAllowed := authorization, maxAllowed;
      this.visited, this.allowed, this.steps := {}, allowed, 0;
    }

    /** The mutable search computes the functional one, as long as it does not fail. */
    ghost predicate Answers(found: Found, r: Result<bool, AuthError>)
      reads this
    {
      match r
      case Ok(granted) => found == Ok((granted, View()))
      case Err(e) => found == Err(e)
    }

    method TakeStep() returns (r: Result<bool, AuthError>)
      modifies this
      ensures match Tick(authorization, old(View()))
              case Ok(st) => r == Ok(true) && View() == st
              case Err(e) => r == Err(e)
    {
      steps := steps + 1;
      if steps > authorization.limits.maxSteps {
        return Err(EvaluationLimit(Step));
      }
      return Ok(true);
    }

    method ResolveUserset(u: UsersetRef, s: ObjectRef, depth: nat) returns (r: Result<bool, AuthError>)
      modifies this
      ensures Answers(Resolve(authorization, maxAllowed, u, s, depth, old(View())), r)
      decreases Remaining(authorization, depth), 3, 0
    {
      if depth >= authorization.limits.maxDepth {
        return Err(EvaluationLimit(Depth));
      }
      var stepped := TakeStep();
      if stepped.Err? {
        return Err(stepped.error);
      }
      if maxAllowed != 0 && (s, u) in allowed {
        return Ok(true);
      }
      if u in visited {
        return Ok(false);
      }
      visited := visited + {u};
      var relation := Lookup(authorization.schema, u.resource.namespace, u.relation);
      if relation.None? {
        return Err(InvalidCheck);
      }
      var granted;
      match relation.value {
        case Direct(_) => granted := ResolveDirect(relation.value, u, s, depth);
        case Permission(rules) => granted := ResolveRewrites(rules, u, s, depth);
      }
      if granted.Err? {
        return Err(granted.error);
      }
      visited := visited - {u};
      if granted.value && |allowed| < maxAllowed {
        allowed := allowed + {(s, u)};
      }
      return granted;
    }

    method ResolveDirect(ghost relation: CompiledRelation, u: UsersetRef, s: ObjectRef, depth: nat)
      returns (r: Result<bool, AuthError>)
      requires depth < authorization.limits.maxDepth && relation.Direct?
      modifies this
      ensures Answers(Expand(authorization, maxAllowed, relation, u, s, depth, old(View())), r)
      decreases Remaining(authorization, depth), 1, 0
    {
      if u !in authorization.tuples {
        return Ok(false);
      }
      var members := authorization.tuples[u];
      if s in members.objects {
        return Ok(true);
      }
      r := ResolveTargets(members.usersets, s, depth);
    }

    method ResolveTargets(targets: seq<UsersetRef>, s: ObjectRef, depth: nat) returns (r: Result<bool, AuthError>)
      requires depth < authorization.limits.maxDepth
      modifies this
      ensures Answers(ResolveEach(authorization, maxAllowed, targets, s, depth, old(View())), r)
      decreases Remaining(authorization, depth), 0, 0
    {
      ghost var whole := ResolveEach(authorization, maxAllowed, targets, s, depth, View());
      assert targets[0..] == targets;
      for i := 0 to |targets|
        invariant whole == ResolveEach(authorization, maxAllowed, targets[i..], s, depth, View())
      {
        assert targets[i..][1..] == targets[i + 1..];
        var stepped := TakeStep();
        if stepped.Err? {
          return Err(stepped.error);
        }
        var granted := ResolveUserset(targets[i], s, depth + 1);
        if granted.Err? || granted.value {
          return granted;
        }
      }
      return Ok(false);
    }

    method ResolveRewrites(rules: seq<RewriteRule>, u: UsersetRef, s: ObjectRef, depth: nat)
      returns (r: Result<bool, AuthError>)
      requires depth < authorization.limits.maxDepth
      modifies this
      ensures Answers(ResolveRules(authorization, maxAllowed, rules, u.resource, s, depth, old(View())), r)
      decreases Remaining(authorization, depth), 1, 0
    {
      ghost var whole := ResolveRules(authorization, maxAllowed, rules, u.resource, s, depth, View());
      assert rules[0..] == rules;
      for i := 0 to |rules|
        invariant whole == ResolveRules(authorization, maxAllowed, rules[i..], u.resource, s, depth, View())
      {
        assert rules[i..][1..] == rules[i + 1..];
        var stepped := TakeStep();
        if stepped.Err? {
          return Err(stepped.error);
        }
        var granted;
        match rules[i] {
          case Inherit(relation) =>
            granted := ResolveUserset(UsersetRef(u.resource, relation), s, depth + 1);
          case TupleToUserset(tupleRelation, targetRelation) =>
            granted := ResolveTargets(Targets(authorization, u.resource, tupleRelation, targetRelation), s, depth);
        }
        if granted.Err? || granted.value {
          return granted;
        }
      }
      return Ok(false);
    }
  }

  // ---- Checks

  predicate WellFormedCheck(a: Authorization, c: Check) {
    && ValidObject(c.subject) && ValidObject(c.resource) && ValidRelation(c.relation)
    && Declared(a.schema, UsersetRef(c.resource, c.relation))
  }

  function CheckWithMemo(a: Authorization, c: Check, allowed: set<(ObjectRef, UsersetRef)>, cap: nat)
    : Result<(bool, set<(ObjectRef, UsersetRef)>), AuthError>
  {
    if !WellFormedCheck(a, c) then Err(InvalidCheck)
    else
      var (granted, st) :- Resolve(a, cap, UsersetRef(c.resource, c.relation), c.subject, 0, Search({}, allowed, 0));
      Ok((granted, st.allowed))
  }

  function CheckOne(a: Authorization, c: Check): Result<bool, AuthError> {
    var (granted, _) :- CheckWithMemo(a, c, {}, 0);
    Ok(granted)
  }

  function MemoCapacity(a: Authorization, checks: nat): nat {
    if checks * a.limits.maxDepth < a.limits.maxSteps then checks * a.limits.maxDepth else a.limits.maxSteps
  }

  function CheckFrom(a: Authorization, checks: seq<Check>, allowed: set<(ObjectRef, UsersetRef)>, cap: nat)
    : Result<seq<bool>, AuthError>
  {
    if checks == [] then Ok([])
    else
      var (granted, memo) :- CheckWithMemo(a, checks[0], allowed, cap);
      var rest :- CheckFrom(a, checks[1..], memo, cap);
      Ok([granted] + rest)
  }

  function CheckMany(a: Authorization, checks: seq<Check>): Result<seq<bool>, AuthError> {
    CheckFrom(a, checks, {}, MemoCapacity(a, |checks|))
  }

  method RunCheck(a: Authorization, c: Check, allowed: set<(ObjectRef, UsersetRef)>, cap: nat)
    returns (r: Result<bool, AuthError>, memo: set<(ObjectRef, UsersetRef)>)
    ensures match r
            case Ok(granted) => CheckWithMemo(a, c, allowed, cap) == Ok((granted, memo))
            case Err(e) => CheckWithMemo(a, c, allowed, cap) == Err(e)
  {
    if !WellFormedCheck(a, c) {
      return Err(InvalidCheck), allowed;
    }
    var evaluator := new Evaluator(a, allowed, cap);
    r := evaluator.ResolveUserset(UsersetRef(c.resource, c.relation), c.subject, 0);
    memo := evaluator.allowed;
  }

  /** A batch shares one memo and stops at the first failing check. */
  method RunChecks(a: Authorization, checks: seq<Check>) returns (r: Result<seq<bool>, AuthError>)
    ensures r == CheckMany(a, checks)
  {
    var cap := MemoCapacity(a, |checks|);
    var memo: set<(ObjectRef, UsersetRef)> := {};
    var answers: seq<bool> := [];
    assert checks[0..] == checks;
    assert forall rest: seq<bool> :: answers + rest == rest;
    for i := 0 to |checks|
      invariant match CheckFrom(a, checks[i..], memo, cap)
                case Ok(rest) => CheckMany(a, checks) == Ok(answers + rest)
                case Err(e) => CheckMany(a, checks) == Err(e)
    {
      assert checks[i..][1..] == checks[i + 1..];
      var granted, next := RunCheck(a, checks[i], memo, cap);
      if granted.Err? {
        return Err(granted.error);
      }
      ghost var tail := CheckFrom(a, checks[i + 1..], next, cap);
      assert tail.Ok? ==> (answers + [granted.value]) + tail.value == answers + ([granted.value] + tail.value);
      answers := answers + [granted.value];
      memo := next;
    }
    assert answers + [] == answers;
    return Ok(answers);
  }
}
