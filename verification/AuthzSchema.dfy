/** Schema compilation, which acts as the type checker of the authorization graph. */
module AuthzSchema {
  import opened Prelude
  import opened AuthzModel

  datatype CompiledRelation =
    | Direct(allowed: set<AllowedSubject>)
    | Permission(rules: seq<RewriteRule>)

  type Relations = map<string, CompiledRelation>
  datatype CompiledSchema = CompiledSchema(namespaces: map<string, Relations>)

  function Lookup(s: CompiledSchema, namespace: string, relation: string): Option<CompiledRelation> {
    if namespace in s.namespaces && relation in s.namespaces[namespace]
    then Some(s.namespaces[namespace][relation]) else None
  }

  predicate Declared(s: CompiledSchema, u: UsersetRef) {
    Lookup(s, u.resource.namespace, u.relation).Some?
  }

  // ---- What a compiled schema promises

  /** The namespace, and relation if constrained, that a selector lets a tuple-to-userset edge lead to. */
  function TupleTarget(a: AllowedSubject): Option<(string, Option<string>)> {
    match a
    case AnyObject(ns) => Some((ns, None))
    case SameResourceId(ns) => Some((ns, None))
    case AnyUserset(ns, rel) => Some((ns, Some(rel)))
    case Exact(Object(o)) => Some((o.namespace, None))
    case Exact(Userset(u)) => Some((u.resource.namespace, Some(u.relation)))
    case Public => None
  }

  predicate SelectorClosed(s: CompiledSchema, a: AllowedSubject) {
    match a
    case AnyUserset(ns, rel) => Lookup(s, ns, rel).Some?
    case Exact(Userset(u)) => Declared(s, u)
    case _ => true
  }

  predicate TargetClosed(s: CompiledSchema, a: AllowedSubject, targetRelation: string) {
    var target := TupleTarget(a);
    && target.Some?
    && (target.value.1.Some? ==> target.value.1.value == targetRelation)
    && Lookup(s, target.value.0, targetRelation).Some?
  }

  predicate RuleClosed(s: CompiledSchema, namespace: string, r: RewriteRule) {
    match r
    case Inherit(rel) => Lookup(s, namespace, rel).Some?
    case TupleToUserset(tupleRelation, targetRelation) =>
      var source := Lookup(s, namespace, tupleRelation);
      source.Some? && source.value.Direct? &&
      forall a :: a in source.value.allowed ==> TargetClosed(s, a, targetRelation)
  }

  predicate RelationClosed(s: CompiledSchema, namespace: string, r: CompiledRelation) {
    match r
    case Direct(allowed) => forall a :: a in allowed ==> SelectorClosed(s, a)
    case Permission(rules) => forall i :: 0 <= i < |rules| ==> RuleClosed(s, namespace, rules[i])
  }

  predicate NamespaceClosed(s: CompiledSchema, namespace: string)
    requires namespace in s.namespaces
  {
    forall rel :: rel in s.namespaces[namespace] ==> RelationClosed(s, namespace, s.namespaces[namespace][rel])
  }

  /** Every name a relation mentions is declared. */
  predicate Closed(s: CompiledSchema) {
    forall ns :: ns in s.namespaces ==> NamespaceClosed(s, ns)
  }

  // ---- Which definitions compile

  predicate SelectorOk(a: AllowedSubject) {
    match a
    case AnyObject(ns) => ValidNamespace(ns)
    case SameResourceId(ns) => ValidNamespace(ns)
    case AnyUserset(ns, rel) => ValidNamespace(ns) && ValidRelation(rel)
    case Exact(subject) => ValidSubject(subject) && !(subject.Object? && IsPublic(subject.entity))
    case Public => true
  }

  predicate RuleOk(r: RewriteRule) {
    match r
    case Inherit(rel) => ValidRelation(rel)
    case TupleToUserset(tupleRelation, targetRelation) => ValidRelation(tupleRelation) && ValidRelation(targetRelation)
  }

  predicate Distinct<T(==)>(s: seq<T>) {
    forall i, j :: 0 <= i < j < |s| ==> s[i] != s[j]
  }

  predicate RelationOk(d: RelationDefinition, limits: Limits) {
    && ValidRelation(d.name)
    && match d.kind
       case DirectKind(allowed) =>
         0 < |allowed| <= limits.maxItemsPerRelation && Distinct(allowed) &&
         forall i :: 0 <= i < |allowed| ==> SelectorOk(allowed[i])
       case PermissionKind(rules) =>
         0 < |rules| <= limits.maxItemsPerRelation && Distinct(rules) &&
         forall i :: 0 <= i < |rules| ==> RuleOk(rules[i])
  }

  ghost predicate Compiles(d: RelationDefinition, r: CompiledRelation) {
    match (d.kind, r)
    case (DirectKind(allowed), Direct(set')) => set' == set a | a in allowed
    case (PermissionKind(rules), Permission(rules')) =>
      |rules'| == |rules| && forall x :: x in rules' <==> x in rules
    case _ => false
  }

  predicate NamespaceOk(d: NamespaceDefinition, limits: Limits) {
    && ValidNamespace(d.name)
    && 0 < |d.relations| <= limits.maxRelationsPerNamespace
    && (forall i :: 0 <= i < |d.relations| ==> RelationOk(d.relations[i], limits))
    && (forall i, j :: 0 <= i < j < |d.relations| ==> d.relations[i].name != d.relations[j].name)
  }

  ghost predicate NamespaceCompiles(d: NamespaceDefinition, r: Relations) {
    && r.Keys == (set i | 0 <= i < |d.relations| :: d.relations[i].name)
    && forall i :: 0 <= i < |d.relations| ==> Compiles(d.relations[i], r[d.relations[i].name])
  }

  predicate DefinitionsOk(d: Schema, limits: Limits) {
    && 0 < |d.namespaces| <= limits.maxNamespaces
    && (forall i :: 0 <= i < |d.namespaces| ==> NamespaceOk(d.namespaces[i], limits))
    && (forall i, j :: 0 <= i < j < |d.namespaces| ==> d.namespaces[i].name != d.namespaces[j].name)
  }

  ghost predicate SchemaCompiles(d: Schema, s: CompiledSchema) {
    && s.namespaces.Keys == (set i | 0 <= i < |d.namespaces| :: d.namespaces[i].name)
    && forall i :: 0 <= i < |d.namespaces| ==> NamespaceCompiles(d.namespaces[i], s.namespaces[d.namespaces[i].name])
  }

  lemma RuleInserted(rules: seq<RewriteRule>, rule: RewriteRule)
    requires Sorted(rules, RuleLess) && rule !in rules
    ensures Sorted(Insert(rules, rule, RuleLess), RuleLess)
  {
    KeptOrders();
    InsertKeepsOrder(rules, rule, RuleLess);
  }

  // ---- All compiled forms of one definition are closed or none is

  ghost predicate SameRelation(r: CompiledRelation, r': CompiledRelation) {
    match (r, r')
    case (Direct(allowed), Direct(allowed')) => allowed == allowed'
    case (Permission(rules), Permission(rules')) => forall x :: x in rules <==> x in rules'
    case _ => false
  }

  /** Two schemas that declare the same relations with the same items. */
  ghost predicate SameSchema(s: CompiledSchema, s': CompiledSchema) {
    forall namespace, relation ::
      var (r, r') := (Lookup(s, namespace, relation), Lookup(s', namespace, relation));
      (r.Some? <==> r'.Some?) && (r.Some? ==> SameRelation(r.value, r'.value))
  }

  lemma CompiledAlike(d: Schema, s: CompiledSchema, s': CompiledSchema)
    requires SchemaCompiles(d, s) && SchemaCompiles(d, s')
    ensures SameSchema(s, s')
  {
    forall namespace, relation
      ensures var (r, r') := (Lookup(s, namespace, relation), Lookup(s', namespace, relation));
              (r.Some? <==> r'.Some?) && (r.Some? ==> SameRelation(r.value, r'.value))
    {
      if namespace in s.namespaces {
        var i :| 0 <= i < |d.namespaces| && d.namespaces[i].name == namespace;
        RelationsAlike(d.namespaces[i], s.namespaces[namespace], s'.namespaces[namespace], relation);
      }
    }
  }

  lemma RelationsAlike(d: NamespaceDefinition, r: Relations, r': Relations, relation: string)
    requires NamespaceCompiles(d, r) && NamespaceCompiles(d, r')
    ensures (relation in r <==> relation in r') && (relation in r ==> SameRelation(r[relation], r'[relation]))
  {
    if relation in r {
      var j :| 0 <= j < |d.relations| && d.relations[j].name == relation;
      assert Compiles(d.relations[j], r[relation]) && Compiles(d.relations[j], r'[relation]);
    }
  }

  lemma RuleClosedAlike(s: CompiledSchema, s': CompiledSchema, namespace: string, rule: RewriteRule)
    requires SameSchema(s, s') && RuleClosed(s, namespace, rule)
    ensures RuleClosed(s', namespace, rule)
  {
    if rule.TupleToUserset? {
      var (r, r') := (Lookup(s, namespace, rule.tupleRelation), Lookup(s', namespace, rule.tupleRelation));
      assert SameRelation(r.value, r'.value);
    }
  }

  lemma ClosedAlike(s: CompiledSchema, s': CompiledSchema)
    requires SameSchema(s, s') && Closed(s)
    ensures Closed(s')
  {
    forall namespace, relation | namespace in s'.namespaces && relation in s'.namespaces[namespace]
      ensures RelationClosed(s', namespace, s'.namespaces[namespace][relation])
    {
      assert Lookup(s', namespace, relation).Some? && Lookup(s, namespace, relation).Some?;
      assert NamespaceClosed(s, namespace);
      RelationClosedAlike(s, s', namespace, s.namespaces[namespace][relation], s'.namespaces[namespace][relation]);
    }
  }

  lemma RelationClosedAlike(s: CompiledSchema, s': CompiledSchema, namespace: string, r: CompiledRelation, r': CompiledRelation)
    requires SameSchema(s, s') && SameRelation(r, r') && RelationClosed(s, namespace, r)
    ensures RelationClosed(s', namespace, r')
  {
    match r'
    case Direct(allowed) =>
      assert forall a :: a in allowed ==> SelectorClosed(s, a);
    case Permission(rules) =>
      forall i | 0 <= i < |rules|
        ensures RuleClosed(s', namespace, rules[i])
      {
        assert rules[i] in r.rules;
        RuleClosedAlike(s, s', namespace, rules[i]);
      }
  }

  /** Every name that a definition mentions is declared in it. */
  ghost predicate ReferencesDeclared(d: Schema) {
    forall s :: SchemaCompiles(d, s) ==> Closed(s)
  }

  /** One compiled form decides for all of them. */
  lemma ClosedDecides(d: Schema, s: CompiledSchema)
    requires SchemaCompiles(d, s)
    ensures Closed(s) <==> ReferencesDeclared(d)
  {
    if Closed(s) {
      forall s' | SchemaCompiles(d, s')
        ensures Closed(s')
      {
        CompiledAlike(d, s, s');
        ClosedAlike(s, s');
      }
    }
  }

  // ---- The compiler

  method CompileRelation(d: RelationDefinition, limits: Limits) returns (r: Result<CompiledRelation, AuthError>)
    ensures r.Ok? <==> RelationOk(d, limits)
    ensures r.Ok? ==> Compiles(d, r.value)
    ensures r.Ok? && r.value.Permission? ==> Sorted(r.value.rules, RuleLess)
    ensures r.Err? ==> r.error == InvalidSchema
  {
    if !ValidRelation(d.name) {
      return Err(InvalidSchema);
    }
    match d.kind
    case DirectKind(subjects) =>
      if |subjects| == 0 || |subjects| > limits.maxItemsPerRelation {
        return Err(InvalidSchema);
      }
      var allowed: set<AllowedSubject> := {};
      for i := 0 to |subjects|
        invariant allowed == set a | a in subjects[..i]
        invariant Distinct(subjects[..i])
        invariant forall j :: 0 <= j < i ==> SelectorOk(subjects[j])
      {
        if !SelectorOk(subjects[i]) || subjects[i] in allowed {
          return Err(InvalidSchema);
        }
        assert subjects[..i + 1] == subjects[..i] + [subjects[i]];
        allowed := allowed + {subjects[i]};
      }
      assert subjects[..|subjects|] == subjects;
      return Ok(Direct(allowed));
    case PermissionKind(rules) =>
      if |rules| == 0 || |rules| > limits.maxItemsPerRelation {
        return Err(InvalidSchema);
      }
      var canonical: seq<RewriteRule> := [];
      for i := 0 to |rules|
        invariant |canonical| == i && forall x :: x in canonical <==> x in rules[..i]
        invariant Sorted(canonical, RuleLess)
        invariant Distinct(rules[..i])
        invariant forall j :: 0 <= j < i ==> RuleOk(rules[j])
      {
        if !RuleOk(rules[i]) || rules[i] in canonical {
          return Err(InvalidSchema);
        }
        assert rules[..i + 1] == rules[..i] + [rules[i]];
        RuleInserted(canonical, rules[i]);
        canonical := Insert(canonical, rules[i], RuleLess);
      }
      assert rules[..|rules|] == rules;
      return Ok(Permission(canonical));
  }

  method CompileNamespace(d: NamespaceDefinition, limits: Limits) returns (r: Result<Relations, AuthError>)
    ensures r.Ok? <==> NamespaceOk(d, limits)
    ensures r.Ok? ==> NamespaceCompiles(d, r.value)
    ensures r.Err? ==> r.error == InvalidSchema
  {
    if !ValidNamespace(d.name) || |d.relations| == 0 || |d.relations| > limits.maxRelationsPerNamespace {
      return Err(InvalidSchema);
    }
    var relations: Relations := map[];
    for i := 0 to |d.relations|
      invariant RelationsDone(d, limits, relations, i)
    {
      var compiled := CompileRelation(d.relations[i], limits);
      if compiled.Err? {
        return Err(InvalidSchema);
      }
      RelationAdded(d, limits, relations, i, compiled.value);
      if d.relations[i].name in relations {
        return Err(InvalidSchema);
      }
      relations := relations[d.relations[i].name := compiled.value];
    }
    return Ok(relations);
  }

  /** The first relations are well formed, distinct and compiled, and there are no others. */
  ghost predicate RelationsDone(d: NamespaceDefinition, limits: Limits, relations: Relations, n: nat)
    requires n <= |d.relations|
  {
    && relations.Keys == (set j | 0 <= j < n :: d.relations[j].name)
    && (forall j :: 0 <= j < n ==> RelationOk(d.relations[j], limits))
    && (forall j :: 0 <= j < n ==> Compiles(d.relations[j], relations[d.relations[j].name]))
    && (forall j, k :: 0 <= j < k < n ==> d.relations[j].name != d.relations[k].name)
  }

  lemma RelationAdded(d: NamespaceDefinition, limits: Limits, relations: Relations, n: nat, compiled: CompiledRelation)
    requires n < |d.relations| && RelationsDone(d, limits, relations, n)
    requires RelationOk(d.relations[n], limits) && Compiles(d.relations[n], compiled)
    ensures if d.relations[n].name in relations then exists j :: 0 <= j < n && d.relations[j].name == d.relations[n].name
            else RelationsDone(d, limits, relations[d.relations[n].name := compiled], n + 1)
  {
  }

  method ValidateRule(s: CompiledSchema, namespace: string, rule: RewriteRule) returns (ok: bool)
    ensures ok <==> RuleClosed(s, namespace, rule)
  {
    match rule
    case Inherit(rel) => return Lookup(s, namespace, rel).Some?;
    case TupleToUserset(tupleRelation, targetRelation) =>
      var source := Lookup(s, namespace, tupleRelation);
      if source.None? || !source.value.Direct? {
        return false;
      }
      var unchecked := source.value.allowed;
      while unchecked != {}
        invariant unchecked <= source.value.allowed
        invariant forall a :: a in source.value.allowed - unchecked ==> TargetClosed(s, a, targetRelation)
        decreases unchecked
      {
        var a :| a in unchecked;
        if !TargetClosed(s, a, targetRelation) {
          return false;
        }
        unchecked := unchecked - {a};
      }
      return true;
  }

  method ValidateRelation(s: CompiledSchema, namespace: string, relation: CompiledRelation) returns (ok: bool)
    ensures ok <==> RelationClosed(s, namespace, relation)
  {
    match relation
    case Direct(allowed) =>
      var unchecked := allowed;
      while unchecked != {}
        invariant unchecked <= allowed
        invariant forall a :: a in allowed - unchecked ==> SelectorClosed(s, a)
        decreases unchecked
      {
        var a :| a in unchecked;
        if !SelectorClosed(s, a) {
          return false;
        }
        unchecked := unchecked - {a};
      }
      return true;
    case Permission(rules) =>
      for i := 0 to |rules|
        invariant forall j :: 0 <= j < i ==> RuleClosed(s, namespace, rules[j])
      {
        var closed := ValidateRule(s, namespace, rules[i]);
        if !closed {
          return false;
        }
      }
      return true;
  }

  method ValidateReferences(s: CompiledSchema) returns (ok: bool)
    ensures ok <==> Closed(s)
  {
    var namespaces := s.namespaces.Keys;
    while namespaces != {}
      invariant namespaces <= s.namespaces.Keys
      invariant forall ns :: ns in s.namespaces.Keys - namespaces ==> NamespaceClosed(s, ns)
      decreases namespaces
    {
      var ns :| ns in namespaces;
      var relations := s.namespaces[ns].Keys;
      while relations != {}
        invariant relations <= s.namespaces[ns].Keys
        invariant forall rel :: rel in s.namespaces[ns].Keys - relations
                           ==> RelationClosed(s, ns, s.namespaces[ns][rel])
        decreases relations
      {
        var rel :| rel in relations;
        var closed := ValidateRelation(s, ns, s.namespaces[ns][rel]);
        if !closed {
          return false;
        }
        relations := relations - {rel};
      }
      namespaces := namespaces - {ns};
    }
    return true;
  }

  /** Compilation succeeds exactly on well-formed definitions whose every reference is declared. */
  method Compile(d: Schema, limits: Limits) returns (r: Result<CompiledSchema, AuthError>)
    ensures r.Ok? <==> ValidLimits(limits) && DefinitionsOk(d, limits) && ReferencesDeclared(d)
    ensures r.Ok? ==> SchemaCompiles(d, r.value) && Closed(r.value)
    ensures r.Err? ==> r.error == if ValidLimits(limits) then InvalidSchema else InvalidLimits
  {
    if !ValidLimits(limits) {
      return Err(InvalidLimits);
    }
    if |d.namespaces| == 0 || |d.namespaces| > limits.maxNamespaces {
      return Err(InvalidSchema);
    }
    var compiled := CompileNamespaces(d, limits);
    if compiled.None? {
      return Err(InvalidSchema);
    }
    var schema := CompiledSchema(compiled.value);
    var closed := ValidateReferences(schema);
    ClosedDecides(d, schema);
    if !closed {
      return Err(InvalidSchema);
    }
    return Ok(schema);
  }

  /** Insert under distinct names, or report the first name that is already taken. */
  method InsertAll<V>(names: seq<string>, values: seq<V>) returns (r: Option<map<string, V>>)
    requires |names| == |values|
    ensures r.Some? <==> forall i, j :: 0 <= i < j < |names| ==> names[i] != names[j]
    ensures r.Some? ==> r.value.Keys == (set j | 0 <= j < |names| :: names[j])
    ensures r.Some? ==> forall j :: 0 <= j < |names| ==> r.value[names[j]] == values[j]
  {
    var m: map<string, V> := map[];
    for i := 0 to |names|
      invariant m.Keys == (set j | 0 <= j < i :: names[j])
      invariant forall j :: 0 <= j < i ==> m[names[j]] == values[j]
      invariant forall j, k :: 0 <= j < k < i ==> names[j] != names[k]
    {
      if names[i] in m {
        return None;
      }
      m := m[names[i] := values[i]];
    }
    return Some(m);
  }

  method CompileEach(d: Schema, limits: Limits) returns (r: Option<seq<Relations>>)
    ensures r.Some? <==> forall j :: 0 <= j < |d.namespaces| ==> NamespaceOk(d.namespaces[j], limits)
    ensures r.Some? ==> |r.value| == |d.namespaces|
    ensures r.Some? ==> forall j :: 0 <= j < |d.namespaces| ==> NamespaceCompiles(d.namespaces[j], r.value[j])
  {
    var relations: seq<Relations> := [];
    for i := 0 to |d.namespaces|
      invariant |relations| == i
      invariant forall j :: 0 <= j < i ==> NamespaceOk(d.namespaces[j], limits)
      invariant forall j :: 0 <= j < i ==> NamespaceCompiles(d.namespaces[j], relations[j])
    {
      var compiled := CompileNamespace(d.namespaces[i], limits);
      if compiled.Err? {
        return None;
      }
      relations := relations + [compiled.value];
    }
    return Some(relations);
  }

  method CompileNamespaces(d: Schema, limits: Limits) returns (r: Option<map<string, Relations>>)
    requires 0 < |d.namespaces| <= limits.maxNamespaces
    ensures r.Some? <==> DefinitionsOk(d, limits)
    ensures r.Some? ==> SchemaCompiles(d, CompiledSchema(r.value))
  {
    var relations := CompileEach(d, limits);
    if relations.None? {
      return None;
    }
    var names := seq(|d.namespaces|, j requires 0 <= j < |d.namespaces| => d.namespaces[j].name);
    r := InsertAll(names, relations.value);
    if r.Some? {
      assert (set j | 0 <= j < |names| :: names[j]) == (set j | 0 <= j < |d.namespaces| :: d.namespaces[j].name);
      assert forall j :: 0 <= j < |d.namespaces| ==> r.value[d.namespaces[j].name] == relations.value[j];
    }
  }
}
