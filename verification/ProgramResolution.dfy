/** Expanding an invocation to its finite, distinct, ordered set of object paths. */
module ProgramResolution {
  import opened Prelude
  import opened Text
  import opened ObjectPaths
  import opened ProgramModel
  import opened ProgramDefinitions

  datatype Context = Context(tenant: string)

  // ---- Which invocations are accepted

  predicate LowerHex(c: char) {
    '0' <= c <= '9' || 'a' <= c <= 'f'
  }

  predicate IdentityOk(i: Invocation) {
    && i.programPathHash != 0
    && i.commandId != "" && Bytes(i.commandId) <= 256
    && (forall k :: 0 <= k < |i.commandId| ==> i.commandId[k] !in {'\0', '/', '{', '}'})
    && |i.fingerprint| == 64 && (forall k :: 0 <= k < 64 ==> LowerHex(i.fingerprint[k]))
  }

  predicate HeaderOk(d: Definition, c: Context, i: Invocation) {
    && IdentityOk(i) && i.encodedBytes <= d.caps.maxInputBytes && CanonicalComponent(c.tenant)
    && "command_id" !in i.arguments && "tenant" !in i.arguments
    && (forall slot :: slot in i.bindings ==> SpecOf(d.documents, slot).Some?)
  }

  function BindingsOf(i: Invocation, slot: string): seq<Binding> {
    if slot in i.bindings then i.bindings[slot] else []
  }

  function TemplateValues(c: Context, i: Invocation, b: Binding): map<string, string> {
    i.arguments["tenant" := c.tenant]["command_id" := i.commandId] + b.templateValues
  }

  predicate BindingOk(spec: DocumentSpec, c: Context, i: Invocation, b: Binding) {
    && (forall name :: name in b.templateValues ==>
          name !in {"command_id", "tenant"} && name !in i.arguments && name in PathFields(spec.path))
    && ExpandPath(spec.path, TemplateValues(c, i, b)) == Some(b.path)
    && b.path.tenant == c.tenant
    && (b.initialJson.Some? ==> spec.allowInitialJson && spec.access.ReadWrite?)
    && b.expectedHead != VersionHead("")
  }

  predicate SlotOk(spec: DocumentSpec, c: Context, i: Invocation) {
    var bindings := BindingsOf(i, spec.name);
    Accepts(spec.cardinality, |bindings|) && forall k :: 0 <= k < |bindings| ==> BindingOk(spec, c, i, bindings[k])
  }

  // ---- What an accepted invocation resolves to

  function SlotDocuments(slot: string, bindings: seq<Binding>): seq<ResolvedDocument> {
    seq(|bindings|, k requires 0 <= k < |bindings| =>
      ResolvedDocument(DocumentRef(slot, k), bindings[k].path, bindings[k].expectedHead, bindings[k].initialJson))
  }

  /** Every binding of every slot, slots in their declared order. */
  function DocumentsOf(specs: seq<DocumentSpec>, i: Invocation): seq<ResolvedDocument> {
    if specs == [] then []
    else
      var last := specs[|specs| - 1];
      DocumentsOf(specs[..|specs| - 1], i) + SlotDocuments(last.name, BindingsOf(i, last.name))
  }

  function PathsOf(documents: seq<ResolvedDocument>): (r: seq<ObjectPath>)
    ensures |r| == |documents|
  {
    seq(|documents|, k requires 0 <= k < |documents| => documents[k].path)
  }

  predicate Distinct<T(==)>(s: seq<T>) {
    forall i, j :: 0 <= i < j < |s| ==> s[i] != s[j]
  }

  predicate Bindable(d: Definition, c: Context, i: Invocation) {
    && HeaderOk(d, c, i)
    && (forall k :: 0 <= k < |d.documents| ==> SlotOk(d.documents[k], c, i))
    && Distinct(PathsOf(DocumentsOf(d.documents, i)))
  }

  /** References and positions name each other; the ordered paths are those of the documents. */
  ghost predicate ResolvedOk(r: Resolved) {
    && (forall k :: 0 <= k < |r.documents| ==>
          r.documents[k].reference in r.byReference && r.byReference[r.documents[k].reference] == k)
    && (forall ref :: ref in r.byReference ==>
          r.byReference[ref] < |r.documents| && r.documents[r.byReference[ref]].reference == ref)
    && Distinct(PathsOf(r.documents))
    && r.documentPaths == Canonical(PathsOf(r.documents)) == r.allPaths
  }

  /** How many documents sit in slots that may be written. */
  function WritableCount(d: Definition, documents: seq<ResolvedDocument>): nat {
    if documents == [] then 0
    else WritableCount(d, documents[..|documents| - 1]) + if MayWrite(d, documents[|documents| - 1].reference) then 1 else 0
  }

  predicate MayWrite(d: Definition, reference: DocumentRef) {
    var spec := SpecOf(d.documents, reference.slot);
    spec.Some? && spec.value.access.ReadWrite?
  }

  // ---- Counting

  lemma {:induction false} WritableAppend(d: Definition, a: seq<ResolvedDocument>, b: seq<ResolvedDocument>)
    ensures WritableCount(d, a + b) == WritableCount(d, a) + WritableCount(d, b)
    decreases |b|
  {
    if b == [] {
      assert a + b == a;
    } else {
      assert (a + b)[..|a + b| - 1] == a + b[..|b| - 1];
      WritableAppend(d, a, b[..|b| - 1]);
    }
  }

  lemma {:induction false} WritableBound(d: Definition, documents: seq<ResolvedDocument>)
    ensures WritableCount(d, documents) <= |documents|
    ensures (forall k :: 0 <= k < |documents| ==> !MayWrite(d, documents[k].reference)) ==> WritableCount(d, documents) == 0
  {
    if documents != [] {
      WritableBound(d, documents[..|documents| - 1]);
    }
  }

  lemma {:induction false} SpecFound(documents: seq<DocumentSpec>, k: nat)
    requires DistinctSlots(documents) && k < |documents|
    ensures SpecOf(documents, documents[k].name) == Some(documents[k])
  {
    if k > 0 {
      assert documents[0].name != documents[k].name;
      SpecFound(documents[1..], k - 1);
    }
  }

  lemma SlotCounts(d: Definition, c: Context, i: Invocation, k: nat)
    requires k < |d.documents| && DistinctSlots(d.documents) && SlotOk(d.documents[k], c, i)
    ensures var slot := SlotDocuments(d.documents[k].name, BindingsOf(i, d.documents[k].name));
            |slot| <= Maximum(d.documents[k].cardinality) && WritableCount(d, slot) <= Writable(d.documents[k])
  {
    WritableBound(d, SlotDocuments(d.documents[k].name, BindingsOf(i, d.documents[k].name)));
    SpecFound(d.documents, k);
  }

  /** A validated definition bounds the documents and the writable ones before anything is resolved. */
  lemma {:induction false} CountsWithinCaps(d: Definition, c: Context, i: Invocation, n: nat)
    requires n <= |d.documents| && DistinctSlots(d.documents)
    requires forall k :: 0 <= k < n ==> SlotOk(d.documents[k], c, i)
    ensures |DocumentsOf(d.documents[..n], i)| <= MaximumPaths(d.documents[..n])
    ensures WritableCount(d, DocumentsOf(d.documents[..n], i)) <= MaximumWrites(d.documents[..n])
  {
    if n > 0 {
      CountsWithinCaps(d, c, i, n - 1);
      assert d.documents[..n][..n - 1] == d.documents[..n - 1];
      var spec := d.documents[n - 1];
      SlotCounts(d, c, i, n - 1);
      WritableAppend(d, DocumentsOf(d.documents[..n - 1], i), SlotDocuments(spec.name, BindingsOf(i, spec.name)));
    }
  }

  // ---- Resolution

  method CheckBinding(spec: DocumentSpec, c: Context, i: Invocation, b: Binding) returns (ok: bool)
    ensures ok <==> BindingOk(spec, c, i, b)
  {
    var fields := PathFields(spec.path);
    var rest := b.templateValues.Keys;
    while rest != {}
      invariant rest <= b.templateValues.Keys
      invariant forall name :: name in b.templateValues && name !in rest ==>
                  name !in {"command_id", "tenant"} && name !in i.arguments && name in fields
    {
      var name :| name in rest;
      if name in {"command_id", "tenant"} || name in i.arguments || name !in fields {
        return false;
      }
      rest := rest - {name};
    }
    var expanded := ExpandPath(spec.path, TemplateValues(c, i, b));
    return && expanded.Some? && expanded.value.tenant == c.tenant && expanded.value == b.path
           && (b.initialJson.Some? ==> spec.allowInitialJson && spec.access.ReadWrite?)
           && b.expectedHead != VersionHead("");
  }

  /** The documents found so far, with every path and reference noted. */
  ghost predicate Building(documents: seq<ResolvedDocument>, byReference: map<DocumentRef, nat>, unique: seq<ObjectPath>) {
    && unique == Canonical(PathsOf(documents)) && Distinct(PathsOf(documents))
    && (forall k :: 0 <= k < |documents| ==> documents[k].reference in byReference && byReference[documents[k].reference] == k)
    && (forall ref :: ref in byReference ==> byReference[ref] < |documents| && documents[byReference[ref]].reference == ref)
  }

  lemma AddDocument(documents: seq<ResolvedDocument>, byReference: map<DocumentRef, nat>, unique: seq<ObjectPath>, doc: ResolvedDocument)
    requires Building(documents, byReference, unique) && doc.path !in unique && doc.reference !in byReference
    ensures Building(documents + [doc], byReference[doc.reference := |documents|], InsertPath(unique, doc.path))
  {
    var grown := documents + [doc];
    assert PathsOf(grown)[..|documents|] == PathsOf(documents);
    assert PathsOf(grown) == PathsOf(documents) + [doc.path];
  }

  lemma RepeatedPath(documents: seq<ResolvedDocument>, doc: ResolvedDocument, more: seq<ResolvedDocument>)
    requires doc.path in PathsOf(documents)
    ensures !Distinct(PathsOf(documents + [doc] + more))
  {
    var k :| 0 <= k < |documents| && PathsOf(documents)[k] == doc.path;
    var all := PathsOf(documents + [doc] + more);
    assert all[k] == doc.path && all[|documents|] == doc.path;
  }

  lemma {:induction false} DocumentsPrefix(specs: seq<DocumentSpec>, i: Invocation, n: nat)
    requires n <= |specs|
    ensures DocumentsOf(specs[..n], i) <= DocumentsOf(specs, i)
    decreases |specs|
  {
    if n < |specs| {
      DocumentsPrefix(specs[..|specs| - 1], i, n);
      assert specs[..|specs| - 1][..n] == specs[..n];
    } else {
      assert specs[..n] == specs;
    }
  }

  lemma {:induction false} SlotElsewhere(specs: seq<DocumentSpec>, i: Invocation, m: nat, n: nat, k: nat)
    requires DistinctSlots(specs) && m <= n < |specs| && k < |DocumentsOf(specs[..m], i)|
    ensures DocumentsOf(specs[..m], i)[k].reference.slot != specs[n].name
    decreases m
  {
    if m > 0 {
      assert specs[..m][..m - 1] == specs[..m - 1];
      if k < |DocumentsOf(specs[..m - 1], i)| {
        SlotElsewhere(specs, i, m - 1, n, k);
      }
    }
  }

  lemma DistinctPrefix(a: seq<ResolvedDocument>, b: seq<ResolvedDocument>)
    requires a <= b && Distinct(PathsOf(b))
    ensures Distinct(PathsOf(a))
  {
    assert forall k :: 0 <= k < |a| ==> PathsOf(a)[k] == PathsOf(b)[k];
  }

  /** One more document of a slot: it is new, or its path was bound before. */
  lemma NextDocument(documents: seq<ResolvedDocument>, byReference: map<DocumentRef, nat>, unique: seq<ObjectPath>,
                     before: seq<ResolvedDocument>, slot: seq<ResolvedDocument>, b: nat)
    requires Building(documents, byReference, unique) && b < |slot| && documents == before + slot[..b]
    requires forall k :: 0 <= k < |documents| ==> documents[k].reference != slot[b].reference
    ensures documents + [slot[b]] == before + slot[..b + 1]
    ensures if slot[b].path in unique then !Distinct(PathsOf(before + slot))
            else Building(documents + [slot[b]], byReference[slot[b].reference := |documents|], InsertPath(unique, slot[b].path))
  {
    assert slot[..b + 1] == slot[..b] + [slot[b]];
    if slot[b].path in unique {
      assert before + slot == documents + [slot[b]] + slot[b + 1..];
      RepeatedPath(documents, slot[b], slot[b + 1..]);
    } else {
      assert slot[b].reference !in byReference;
      AddDocument(documents, byReference, unique, slot[b]);
    }
  }

  method CheckSlot(spec: DocumentSpec, c: Context, i: Invocation) returns (ok: bool)
    ensures ok <==> SlotOk(spec, c, i)
  {
    var bindings := BindingsOf(i, spec.name);
    if !Accepts(spec.cardinality, |bindings|) {
      return false;
    }
    for b := 0 to |bindings|
      invariant forall k :: 0 <= k < b ==> BindingOk(spec, c, i, bindings[k])
    {
      var bound := CheckBinding(spec, c, i, bindings[b]);
      if !bound {
        return false;
      }
    }
    return true;
  }

  /** Take up the documents of one slot, unless a path is bound a second time. */
  method AddSlot(slot: seq<ResolvedDocument>, before: seq<ResolvedDocument>, known: map<DocumentRef, nat>, taken: seq<ObjectPath>)
    returns (ok: bool, documents: seq<ResolvedDocument>, byReference: map<DocumentRef, nat>, unique: seq<ObjectPath>)
    requires Building(before, known, taken) && DistinctReferences(before + slot)
    ensures ok <==> Distinct(PathsOf(before + slot))
    ensures ok ==> documents == before + slot && Building(documents, byReference, unique)
  {
    documents, byReference, unique := before, known, taken;
    assert before + slot[..0] == before;
    for b := 0 to |slot|
      invariant documents == before + slot[..b] && Building(documents, byReference, unique)
    {
      NewReference(before, slot, b);
      NextDocument(documents, byReference, unique, before, slot, b);
      var path := slot[b].path;
      if path in unique {
        return false, documents, byReference, unique;
      }
      unique := InsertPath(unique, path);
      byReference := byReference[slot[b].reference := |documents|];
      documents := documents + [slot[b]];
    }
    assert slot[..|slot|] == slot;
    return true, documents, byReference, unique;
  }

  predicate DistinctReferences(documents: seq<ResolvedDocument>) {
    forall j, k :: 0 <= j < k < |documents| ==> documents[j].reference != documents[k].reference
  }

  lemma NewReference(before: seq<ResolvedDocument>, slot: seq<ResolvedDocument>, b: nat)
    requires DistinctReferences(before + slot) && b < |slot|
    ensures forall k :: 0 <= k < |before + slot[..b]| ==> (before + slot[..b])[k].reference != slot[b].reference
  {
    var all := before + slot;
    assert all[|before| + b] == slot[b];
    assert forall k :: 0 <= k < |before| + b ==> all[k] == (before + slot[..b])[k];
  }

  lemma {:induction false} ReferencesDistinct(specs: seq<DocumentSpec>, i: Invocation, n: nat)
    requires DistinctSlots(specs) && n <= |specs|
    ensures DistinctReferences(DocumentsOf(specs[..n], i))
  {
    if n > 0 {
      ReferencesDistinct(specs, i, n - 1);
      assert specs[..n][..n - 1] == specs[..n - 1];
      var before := DocumentsOf(specs[..n - 1], i);
      var slot := SlotDocuments(specs[n - 1].name, BindingsOf(i, specs[n - 1].name));
      assert DocumentsOf(specs[..n], i) == before + slot;
      forall k | 0 <= k < |before|
        ensures before[k].reference.slot != specs[n - 1].name
      {
        SlotElsewhere(specs, i, n - 1, n - 1, k);
      }
    }
  }

  /** Check and take up every slot, in order. */
  method BindSlots(specs: seq<DocumentSpec>, c: Context, i: Invocation)
    returns (ok: bool, documents: seq<ResolvedDocument>, byReference: map<DocumentRef, nat>, unique: seq<ObjectPath>)
    requires DistinctSlots(specs)
    ensures ok <==> (forall k :: 0 <= k < |specs| ==> SlotOk(specs[k], c, i)) && Distinct(PathsOf(DocumentsOf(specs, i)))
    ensures ok ==> documents == DocumentsOf(specs, i) && Building(documents, byReference, unique)
  {
    documents, byReference, unique := [], map[], [];
    assert PathsOf([]) == [];
    for s := 0 to |specs|
      invariant documents == DocumentsOf(specs[..s], i) && Building(documents, byReference, unique)
      invariant forall k :: 0 <= k < s ==> SlotOk(specs[k], c, i)
    {
      var spec := specs[s];
      ok := CheckSlot(spec, c, i);
      if !ok {
        return;
      }
      SlotGrows(specs, i, s);
      ok, documents, byReference, unique := AddSlot(SlotDocuments(spec.name, BindingsOf(i, spec.name)), documents, byReference, unique);
      if !ok {
        return;
      }
    }
    assert specs[..|specs|] == specs;
    ok := true;
  }

  /**
    For a definition whose slots are distinct and bounded by its cap, exactly the bindable invocations resolve, the
    result lists every binding once, and the cap on paths never fires.
   */
  method Resolve(d: Definition, c: Context, i: Invocation) returns (r: Result<Resolved, EngineError>)
    requires DistinctSlots(d.documents) && MaximumPaths(d.documents) <= d.caps.maxPaths
    ensures r.Ok? <==> Bindable(d, c, i)
    ensures r.Ok? ==> ResolvedOk(r.value) && r.value.documents == DocumentsOf(d.documents, i)
    ensures r.Err? ==> r.error == InvalidInvocation
  {
    if !HeaderOk(d, c, i) {
      return Err(InvalidInvocation);
    }
    var ok, documents, byReference, unique := BindSlots(d.documents, c, i);
    if !ok {
      return Err(InvalidInvocation);
    }
    PathsWithinCap(d, c, i);
    if |unique| > d.caps.maxPaths {
      return Err(TooManyPaths);
    }
    return Ok(Resolved(documents, Canonical(PathsOf(documents)), byReference, unique));
  }

  lemma PathsWithinCap(d: Definition, c: Context, i: Invocation)
    requires DistinctSlots(d.documents) && forall k :: 0 <= k < |d.documents| ==> SlotOk(d.documents[k], c, i)
    ensures |Canonical(PathsOf(DocumentsOf(d.documents, i)))| <= MaximumPaths(d.documents)
  {
    assert d.documents[..|d.documents|] == d.documents;
    CountsWithinCaps(d, c, i, |d.documents|);
    UniqueCount(PathsOf(DocumentsOf(d.documents, i)));
  }

  /** Taking up slot `s`: its documents come after the earlier ones, and all references stay distinct. */
  lemma SlotGrows(specs: seq<DocumentSpec>, i: Invocation, s: nat)
    requires DistinctSlots(specs) && s < |specs|
    ensures var grown := DocumentsOf(specs[..s], i) + SlotDocuments(specs[s].name, BindingsOf(i, specs[s].name));
            && DocumentsOf(specs[..s + 1], i) == grown && DistinctReferences(grown)
            && (Distinct(PathsOf(DocumentsOf(specs, i))) ==> Distinct(PathsOf(grown)))
  {
    ReferencesDistinct(specs, i, s + 1);
    DocumentsGrow(specs, i, s);
  }

  lemma DocumentsGrow(specs: seq<DocumentSpec>, i: Invocation, s: nat)
    requires s < |specs|
    ensures DocumentsOf(specs[..s + 1], i)
            == DocumentsOf(specs[..s], i) + SlotDocuments(specs[s].name, BindingsOf(i, specs[s].name))
    ensures Distinct(PathsOf(DocumentsOf(specs, i))) ==> Distinct(PathsOf(DocumentsOf(specs[..s + 1], i)))
  {
    assert specs[..s + 1][..s] == specs[..s];
    DocumentsPrefix(specs, i, s + 1);
    if Distinct(PathsOf(DocumentsOf(specs, i))) {
      DistinctPrefix(DocumentsOf(specs[..s + 1], i), DocumentsOf(specs, i));
    }
  }

  lemma {:induction false} UniqueCount(paths: seq<ObjectPath>)
    ensures |Canonical(paths)| <= |paths|
  {
    if paths != [] {
      UniqueCount(paths[..|paths| - 1]);
      InsertCount(Canonical(paths[..|paths| - 1]), paths[|paths| - 1]);
    }
  }

  lemma {:induction false} InsertCount(s: seq<ObjectPath>, p: ObjectPath)
    requires Ascending(s)
    ensures |InsertPath(s, p)| <= |s| + 1
  {
    if s != [] && p != s[0] && !PathLess(p, s[0]) {
      InsertCount(s[1..], p);
    }
  }

  // ---- Canonical paths

  function Renamed(documents: seq<ResolvedDocument>, canonical: map<ObjectPath, ObjectPath>): (r: seq<ResolvedDocument>)
    ensures |r| == |documents|
  {
    seq(|documents|, k requires 0 <= k < |documents| =>
      if documents[k].path in canonical then documents[k].(path := canonical[documents[k].path]) else documents[k])
  }

  method RenamePaths(given: seq<ResolvedDocument>, canonical: map<ObjectPath, ObjectPath>)
    returns (ok: bool, documents: seq<ResolvedDocument>, unique: seq<ObjectPath>)
    ensures ok <==> Distinct(PathsOf(Renamed(given, canonical)))
    ensures ok ==> documents == Renamed(given, canonical) && unique == Canonical(PathsOf(documents))
  {
    documents, unique := given, [];
    ghost var renamed := Renamed(given, canonical);
    assert PathsOf(renamed[..0]) == [];
    for k := 0 to |given|
      invariant |documents| == |given|
      invariant forall j :: 0 <= j < |given| ==> documents[j] == if j < k then renamed[j] else given[j]
      invariant Collected(renamed[..k], unique)
    {
      var document := documents[k];
      if document.path in canonical {
        document := document.(path := canonical[document.path]);
        documents := documents[k := document];
      }
      assert document == renamed[k];
      Collect(renamed, k, unique);
      if document.path in unique {
        return false, documents, unique;
      }
      unique := InsertPath(unique, document.path);
    }
    assert renamed[..|given|] == renamed && documents == renamed;
    return true, documents, unique;
  }

  /** Aliases are replaced, and two that meet at one object are refused. */
  method Canonicalize(resolved: Resolved, canonical: map<ObjectPath, ObjectPath>) returns (r: Result<Resolved, EngineError>)
    requires ResolvedOk(resolved)
    ensures r.Ok? <==> (forall logical :: logical in canonical ==> logical in PathsOf(resolved.documents))
                       && Distinct(PathsOf(Renamed(resolved.documents, canonical)))
    ensures r.Ok? ==> ResolvedOk(r.value) && r.value.documents == Renamed(resolved.documents, canonical)
    ensures r.Err? ==> r.error == InvalidInvocation
  {
    if exists logical :: logical in canonical && logical !in resolved.documentPaths {
      return Err(InvalidInvocation);
    }
    var ok, documents, unique := RenamePaths(resolved.documents, canonical);
    if !ok {
      return Err(InvalidInvocation);
    }
    r := Ok(Resolved(documents, unique, resolved.byReference, unique));
    assert forall k :: 0 <= k < |documents| ==> documents[k].reference == resolved.documents[k].reference;
  }

  ghost predicate Collected(documents: seq<ResolvedDocument>, unique: seq<ObjectPath>) {
    unique == Canonical(PathsOf(documents)) && Distinct(PathsOf(documents))
  }

  lemma Collect(documents: seq<ResolvedDocument>, k: nat, unique: seq<ObjectPath>)
    requires k < |documents| && Collected(documents[..k], unique)
    ensures if documents[k].path in unique then !Distinct(PathsOf(documents))
            else Collected(documents[..k + 1], InsertPath(unique, documents[k].path))
  {
    if documents[k].path in unique {
      RepeatedPath(documents[..k], documents[k], documents[k + 1..]);
      assert documents == documents[..k] + [documents[k]] + documents[k + 1..];
    } else {
      var paths := PathsOf(documents[..k + 1]);
      assert paths[..k] == PathsOf(documents[..k]) && paths[k] == documents[k].path;
    }
  }
}
