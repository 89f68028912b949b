/** Schemas, tuples and checks of the authorization engine, with their syntactic validation. */
module AuthzModel {
  import opened Text

  const MAX_NAMESPACE_BYTES := 256
  const MAX_RELATION_BYTES := 256
  const MAX_OPAQUE_ID_BYTES := 4096
  const MAX_PATH_BYTES := 4096

  datatype LimitKind = Depth | Step

  datatype AuthError =
    | InvalidLimits
    | InvalidSchema
    | InvalidTuple(index: nat)
    | InvalidCheck
    | EvaluationLimit(kind: LimitKind)

  datatype Limits = Limits(
    maxNamespaces: nat, maxRelationsPerNamespace: nat, maxItemsPerRelation: nat,
    maxTuples: nat, maxDepth: nat, maxSteps: nat)

  datatype ExactPath = ExactPath(tenant: string, bucket: string, path: string)
  datatype ObjectId = Opaque(id: string) | Path(path: ExactPath)
  datatype ObjectRef = ObjectRef(namespace: string, id: ObjectId)
  datatype UsersetRef = UsersetRef(resource: ObjectRef, relation: string)
  datatype TupleSubject = Object(entity: ObjectRef) | Userset(userset: UsersetRef)
  datatype Tuple = Tuple(resource: ObjectRef, relation: string, subject: TupleSubject)

  datatype AllowedSubject =
    | AnyObject(namespace: string)
    | AnyUserset(namespace: string, relation: string)
    | Exact(subject: TupleSubject)
    | SameResourceId(namespace: string)
    | Public

  datatype RewriteRule =
    | Inherit(relation: string)
    | TupleToUserset(tupleRelation: string, targetRelation: string)

  datatype RelationKind = DirectKind(allowedSubjects: seq<AllowedSubject>) | PermissionKind(rules: seq<RewriteRule>)
  datatype RelationDefinition = RelationDefinition(name: string, kind: RelationKind)
  datatype NamespaceDefinition = NamespaceDefinition(name: string, relations: seq<RelationDefinition>)
  datatype Schema = Schema(namespaces: seq<NamespaceDefinition>)
  datatype Check = Check(subject: ObjectRef, resource: ObjectRef, relation: string)

  predicate IsPublic(o: ObjectRef) {
    o.namespace == "app" && o.id == Opaque("_keldra/public")
  }

  // ---- Validation of names

  predicate Bounded(s: string, maximum: nat) {
    s != "" && Bytes(s) <= maximum && forall i :: 0 <= i < |s| ==> !IsControl(s[i])
  }

  predicate ValidNamespace(s: string) {
    Bounded(s, MAX_NAMESPACE_BYTES) && s != "." && s != ".." && '/' !in s && ':' !in s && '#' !in s
  }

  predicate ValidRelation(s: string) {
    Bounded(s, MAX_RELATION_BYTES) && s != "." && s != ".." && '/' !in s && '#' !in s
  }

  function Segments(s: string): seq<string> {
    if s == "" then [""]
    else
      var rest := Segments(s[1..]);
      if s[0] == '/' then [""] + rest else [[s[0]] + rest[0]] + rest[1..]
  }

  predicate ValidExactPath(p: ExactPath) {
    && Bounded(p.tenant, MAX_NAMESPACE_BYTES) && Bounded(p.bucket, MAX_NAMESPACE_BYTES)
    && '/' !in p.tenant && '/' !in p.bucket
    && Bounded(p.path, MAX_PATH_BYTES)
    && forall i :: 0 <= i < |Segments(p.path)| ==> Segments(p.path)[i] !in {"", ".", ".."}
  }

  predicate ValidObject(o: ObjectRef) {
    ValidNamespace(o.namespace) &&
    match o.id
    case Opaque(id) => Bounded(id, MAX_OPAQUE_ID_BYTES)
    case Path(path) => ValidExactPath(path)
  }

  predicate ValidUserset(u: UsersetRef) {
    ValidObject(u.resource) && ValidRelation(u.relation)
  }

  predicate ValidSubject(s: TupleSubject) {
    match s
    case Object(o) => ValidObject(o)
    case Userset(u) => ValidUserset(u)
  }

  predicate ValidLimits(l: Limits) {
    && l.maxNamespaces != 0 && l.maxRelationsPerNamespace != 0 && l.maxItemsPerRelation != 0
    && l.maxTuples != 0 && l.maxDepth != 0 && l.maxSteps != 0
  }

  // ---- The order in which ordered sets are iterated

  predicate PathLess(a: ExactPath, b: ExactPath) {
    || StringLess(a.tenant, b.tenant)
    || (a.tenant == b.tenant && StringLess(a.bucket, b.bucket))
    || (a.tenant == b.tenant && a.bucket == b.bucket && StringLess(a.path, b.path))
  }

  predicate IdLess(a: ObjectId, b: ObjectId) {
    match (a, b)
    case (Opaque(x), Opaque(y)) => StringLess(x, y)
    case (Opaque(_), Path(_)) => true
    case (Path(_), Opaque(_)) => false
    case (Path(x), Path(y)) => PathLess(x, y)
  }

  predicate ObjectLess(a: ObjectRef, b: ObjectRef) {
    StringLess(a.namespace, b.namespace) || (a.namespace == b.namespace && IdLess(a.id, b.id))
  }

  predicate UsersetLess(a: UsersetRef, b: UsersetRef) {
    ObjectLess(a.resource, b.resource) || (a.resource == b.resource && StringLess(a.relation, b.relation))
  }

  predicate RuleLess(a: RewriteRule, b: RewriteRule) {
    match (a, b)
    case (Inherit(x), Inherit(y)) => StringLess(x, y)
    case (Inherit(_), TupleToUserset(_, _)) => true
    case (TupleToUserset(_, _), Inherit(_)) => false
    case (TupleToUserset(x, t), TupleToUserset(y, v)) => StringLess(x, y) || (x == y && StringLess(t, v))
  }

  /** Insertion into an ordered set kept as its ascending sequence. */
  function Insert<T(!new)>(s: seq<T>, x: T, less: (T, T) -> bool): (r: seq<T>)
    ensures forall y :: y in r <==> y in s || y == x
    ensures |r| == |s| + 1
  {
    if s == [] || less(x, s[0]) then
      assert forall y :: y in [x] + s <==> y in s || y == x;
      [x] + s
    else
      var rest := Insert(s[1..], x, less);
      assert forall y :: y in s <==> y == s[0] || y in s[1..];
      [s[0]] + rest
  }

  ghost predicate Sorted<T(!new)>(s: seq<T>, less: (T, T) -> bool) {
    forall i, j :: 0 <= i < j < |s| ==> less(s[i], s[j])
  }

  /** A strict total order. */
  ghost predicate Order<T(!new)>(less: (T, T) -> bool) {
    && (forall a, b, c :: less(a, b) && less(b, c) ==> less(a, c))
    && (forall a, b :: a != b ==> less(a, b) || less(b, a))
    && (forall a :: !less(a, a))
  }

  lemma {:induction false} InsertKeepsOrder<T(!new)>(s: seq<T>, x: T, less: (T, T) -> bool)
    requires Order(less) && Sorted(s, less) && x !in s
    ensures Sorted(Insert(s, x, less), less)
  {
    if s != [] && !less(x, s[0]) {
      var rest := Insert(s[1..], x, less);
      InsertKeepsOrder(s[1..], x, less);
      forall j | 0 <= j < |rest|
        ensures less(s[0], rest[j])
      {
        assert rest[j] in rest;
        if rest[j] != x {
          var k :| 0 <= k < |s[1..]| && s[1..][k] == rest[j];
          assert s[k + 1] == rest[j];
        }
      }
    }
  }

  lemma StringsOrdered(a: string, b: string, c: string)
    ensures StringLess(a, b) && StringLess(b, c) ==> StringLess(a, c)
    ensures a != b ==> StringLess(a, b) || StringLess(b, a)
    ensures !StringLess(a, a)
  {
    if StringLess(a, b) && StringLess(b, c) {
      LessTransitive(a, b, c);
    }
    if a != b {
      LessTotal(a, b);
    }
    LessIrreflexive(a);
  }

  lemma PathsOrdered(a: ExactPath, b: ExactPath, c: ExactPath)
    ensures PathLess(a, b) && PathLess(b, c) ==> PathLess(a, c)
    ensures a != b ==> PathLess(a, b) || PathLess(b, a)
    ensures !PathLess(a, a)
  {
    StringsOrdered(a.tenant, b.tenant, c.tenant);
    StringsOrdered(a.bucket, b.bucket, c.bucket);
    StringsOrdered(a.path, b.path, c.path);
  }

  lemma IdsOrdered(a: ObjectId, b: ObjectId, c: ObjectId)
    ensures IdLess(a, b) && IdLess(b, c) ==> IdLess(a, c)
    ensures a != b ==> IdLess(a, b) || IdLess(b, a)
    ensures !IdLess(a, a)
  {
    var empty := ExactPath("", "", "");
    StringsOrdered(if a.Opaque? then a.id else "", if b.Opaque? then b.id else "", if c.Opaque? then c.id else "");
    PathsOrdered(if a.Path? then a.path else empty, if b.Path? then b.path else empty, if c.Path? then c.path else empty);
  }

  lemma ObjectsOrdered(a: ObjectRef, b: ObjectRef, c: ObjectRef)
    ensures ObjectLess(a, b) && ObjectLess(b, c) ==> ObjectLess(a, c)
    ensures a != b ==> ObjectLess(a, b) || ObjectLess(b, a)
    ensures !ObjectLess(a, a)
  {
    StringsOrdered(a.namespace, b.namespace, c.namespace);
    IdsOrdered(a.id, b.id, c.id);
  }

  lemma UsersetsOrdered(a: UsersetRef, b: UsersetRef, c: UsersetRef)
    ensures UsersetLess(a, b) && UsersetLess(b, c) ==> UsersetLess(a, c)
    ensures a != b ==> UsersetLess(a, b) || UsersetLess(b, a)
    ensures !UsersetLess(a, a)
  {
    ObjectsOrdered(a.resource, b.resource, c.resource);
    StringsOrdered(a.relation, b.relation, c.relation);
  }

  lemma RulesOrdered(a: RewriteRule, b: RewriteRule, c: RewriteRule)
    ensures RuleLess(a, b) && RuleLess(b, c) ==> RuleLess(a, c)
    ensures a != b ==> RuleLess(a, b) || RuleLess(b, a)
    ensures !RuleLess(a, a)
  {
    StringsOrdered(FirstName(a), FirstName(b), FirstName(c));
    StringsOrdered(SecondName(a), SecondName(b), SecondName(c));
  }

  function FirstName(r: RewriteRule): string {
    match r
    case Inherit(relation) => relation
    case TupleToUserset(tupleRelation, _) => tupleRelation
  }

  function SecondName(r: RewriteRule): string {
    match r
    case Inherit(_) => ""
    case TupleToUserset(_, targetRelation) => targetRelation
  }

  /** The orders in which rules, subjects and usersets are kept. */
  lemma KeptOrders()
    ensures Order(RuleLess) && Order(ObjectLess) && Order(UsersetLess)
  {
    forall a, b, c
      ensures (RuleLess(a, b) && RuleLess(b, c) ==> RuleLess(a, c)) && (a != b ==> RuleLess(a, b) || RuleLess(b, a)) && !RuleLess(a, a)
    {
      RulesOrdered(a, b, c);
    }
    forall a, b, c
      ensures (ObjectLess(a, b) && ObjectLess(b, c) ==> ObjectLess(a, c)) && (a != b ==> ObjectLess(a, b) || ObjectLess(b, a)) && !ObjectLess(a, a)
    {
      ObjectsOrdered(a, b, c);
    }
    forall a, b, c
      ensures (UsersetLess(a, b) && UsersetLess(b, c) ==> UsersetLess(a, c)) && (a != b ==> UsersetLess(a, b) || UsersetLess(b, a)) && !UsersetLess(a, a)
    {
      UsersetsOrdered(a, b, c);
    }
  }
}
