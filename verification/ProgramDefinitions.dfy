/** Which definitions are accepted, and what each document position may be used for. */
module ProgramDefinitions {
  import opened Prelude
  import opened Text
  import opened JsonPointer
  import opened ProgramModel

  // ---- Well-formed definitions

  predicate AlphaNumeric(c: char) {
    'a' <= c <= 'z' || 'A' <= c <= 'Z' || '0' <= c <= '9'
  }

  predicate ValidIdentifier(s: string) {
    1 <= |s| <= 128 && forall i :: 0 <= i < |s| ==> AlphaNumeric(s[i]) || s[i] in {'_', '-', '.', ':', '/'}
  }

  predicate ValidInputName(s: string) {
    1 <= |s| <= 128 && forall i :: 0 <= i < |s| ==> AlphaNumeric(s[i]) || s[i] in {'_', '-', '.'}
  }

  predicate ValidContentType(s: string) {
    s != "" && Bytes(s) <= 255 && '\0' !in s
  }

  predicate ValidFieldName(s: string) {
    && s != "" && (s[0] == '_' || 'a' <= s[0] <= 'z' || 'A' <= s[0] <= 'Z')
    && forall i :: 0 < i < |s| ==> s[i] == '_' || AlphaNumeric(s[i])
  }

  predicate ValidTemplate(t: Template) {
    && t != []
    && forall i :: 0 <= i < |t| ==>
         match t[i]
         case Literal(text) => text != "" && '{' !in text && '}' !in text && '\0' !in text
         case Field(name) => ValidFieldName(name)
  }

  predicate NoSlash(t: Template) {
    forall i :: 0 <= i < |t| && t[i].Literal? ==> '/' !in t[i].text
  }

  predicate ValidPathTemplate(p: PathTemplate) {
    && ValidTemplate(p.tenant) && ValidTemplate(p.bucket) && ValidTemplate(p.path)
    && NoSlash(p.tenant) && NoSlash(p.bucket)
  }

  predicate SpecOk(d: DocumentSpec) {
    && ValidIdentifier(d.name) && ValidPathTemplate(d.path)
    && d.cardinality != Repeated(0) && (d.allowInitialJson ==> d.access.ReadWrite?)
  }

  function Writable(d: DocumentSpec): nat {
    if d.access.ReadWrite? then Maximum(d.cardinality) else 0
  }

  /** The most paths that the slots can bind, and the most of them that can be written. */
  function MaximumPaths(documents: seq<DocumentSpec>): nat {
    if documents == [] then 0
    else MaximumPaths(documents[..|documents| - 1]) + Maximum(documents[|documents| - 1].cardinality)
  }

  function MaximumWrites(documents: seq<DocumentSpec>): nat {
    if documents == [] then 0
    else MaximumWrites(documents[..|documents| - 1]) + Writable(documents[|documents| - 1])
  }

  predicate DistinctSlots(documents: seq<DocumentSpec>) {
    forall i, j :: 0 <= i < j < |documents| ==> documents[i].name != documents[j].name
  }

  predicate RefOk(documents: seq<DocumentSpec>, reference: DocumentRef, writes: bool) {
    var spec := SpecOf(documents, reference.slot);
    && spec.Some? && reference.index < Maximum(spec.value.cardinality)
    && (writes ==> spec.value.access.ReadWrite?)
  }

  predicate PointerOk(documents: seq<DocumentSpec>, p: PointerRef, writes: bool) {
    RefOk(documents, p.document, writes) && Tokens(p.pointer).Some?
  }

  predicate InputOk(v: InputValue) {
    v.Input? ==> ValidInputName(v.name)
  }

  predicate SourceOk(documents: seq<DocumentSpec>, v: ValueSource) {
    match v
    case FromInput(input) => InputOk(input)
    case FromDocument(source) => PointerOk(documents, source.value, false)
  }

  predicate IntegerOk(t: IntegerType) {
    t.min.Some? && t.max.Some? ==> t.min.value <= t.max.value
  }

  predicate AssertionOk(documents: seq<DocumentSpec>, a: Assertion) {
    match a
    case Exists(document) => RefOk(documents, document, false)
    case Absent(document) => RefOk(documents, document, false)
    case JsonEqual(actual, expected) => PointerOk(documents, actual, false) && InputOk(expected)
    case IntegerCompare(actual, _, expected, numeric) =>
      PointerOk(documents, actual, false) && InputOk(expected) && IntegerOk(numeric)
  }

  predicate OperationOk(documents: seq<DocumentSpec>, o: Operation) {
    match o
    case SetValue(target, value) => PointerOk(documents, target, true) && SourceOk(documents, value)
    case RemoveValue(target) => PointerOk(documents, target, true)
    case CheckedIntegerAdd(target, delta, numeric) => PointerOk(documents, target, true) && InputOk(delta) && IntegerOk(numeric)
    case CopyValue(source, target) => PointerOk(documents, source.value, false) && PointerOk(documents, target, true)
    case ReplaceOpaque(document, input, contentType) =>
      RefOk(documents, document, true) && ValidInputName(input) && ValidContentType(contentType)
  }

  predicate ReturnsOk(documents: seq<DocumentSpec>, returned: seq<Returned>) {
    && (forall i :: 0 <= i < |returned| ==> ValidIdentifier(returned[i].name) && PointerOk(documents, returned[i].value.value, false))
    && (forall i, j :: 0 <= i < j < |returned| ==> returned[i].name != returned[j].name)
  }

  predicate CapsOk(d: Definition) {
    && d.schemaVersion == DEFINITION_SCHEMA_VERSION
    && d.caps.maxPaths > 0 && d.caps.maxInputBytes > 0 && d.caps.maxDocumentBytes > 0
    && |d.assertions| + |d.operations| + |d.returned| <= d.caps.maxOperations
  }

  predicate DocumentsOk(d: Definition) {
    && (forall i :: 0 <= i < |d.documents| ==> SpecOk(d.documents[i]))
    && DistinctSlots(d.documents)
    && MaximumPaths(d.documents) <= d.caps.maxPaths && MaximumWrites(d.documents) <= d.caps.maxWrites
  }

  predicate WellFormed(d: Definition) {
    && CapsOk(d) && DocumentsOk(d)
    && (forall i :: 0 <= i < |d.assertions| ==> AssertionOk(d.documents, d.assertions[i]))
    && (forall i :: 0 <= i < |d.operations| ==> OperationOk(d.documents, d.operations[i]))
    && ReturnsOk(d.documents, d.returned)
  }

  method ValidateDocuments(d: Definition) returns (ok: bool)
    ensures ok <==> DocumentsOk(d)
  {
    var slots: set<string> := {};
    var paths, writes := 0, 0;
    for i := 0 to |d.documents|
      invariant paths == MaximumPaths(d.documents[..i]) && writes == MaximumWrites(d.documents[..i])
      invariant slots == set j | 0 <= j < i :: d.documents[j].name
      invariant DistinctSlots(d.documents[..i]) && forall j :: 0 <= j < i ==> SpecOk(d.documents[j])
    {
      var spec := d.documents[i];
      if !SpecOk(spec) {
        return false;
      }
      if spec.name in slots {
        return false;
      }
      slots := slots + {spec.name};
      assert d.documents[..i + 1][..i] == d.documents[..i];
      paths := paths + Maximum(spec.cardinality);
      if spec.access.ReadWrite? {
        writes := writes + Maximum(spec.cardinality);
      }
    }
    assert d.documents[..|d.documents|] == d.documents;
    return paths <= d.caps.maxPaths && writes <= d.caps.maxWrites;
  }

  method ValidateReturns(d: Definition) returns (ok: bool)
    ensures ok <==> ReturnsOk(d.documents, d.returned)
  {
    var names: set<string> := {};
    for i := 0 to |d.returned|
      invariant names == set j | 0 <= j < i :: d.returned[j].name
      invariant ReturnsOk(d.documents, d.returned[..i])
    {
      var returned := d.returned[i];
      if !ValidIdentifier(returned.name) || returned.name in names || !PointerOk(d.documents, returned.value.value, false) {
        return false;
      }
      names := names + {returned.name};
    }
    assert d.returned[..|d.returned|] == d.returned;
    return true;
  }

  /** Exactly the well-formed definitions are accepted. */
  method Validate(d: Definition) returns (ok: bool)
    ensures ok <==> WellFormed(d)
  {
    if !CapsOk(d) {
      return false;
    }
    ok := ValidateDocuments(d);
    if !ok {
      return false;
    }
    for i := 0 to |d.assertions|
      invariant forall j :: 0 <= j < i ==> AssertionOk(d.documents, d.assertions[j])
    {
      if !AssertionOk(d.documents, d.assertions[i]) {
        return false;
      }
    }
    for i := 0 to |d.operations|
      invariant forall j :: 0 <= j < i ==> OperationOk(d.documents, d.operations[j])
    {
      if !OperationOk(d.documents, d.operations[i]) {
        return false;
      }
    }
    ok := ValidateReturns(d);
  }

  // ---- Intents

  datatype Intent = Intent(get: bool, put: bool, delete: bool)

  /** The operation leaves a live value at the reference. */
  predicate Puts(o: Operation, reference: DocumentRef) {
    match o
    case SetValue(target, _) => target.document == reference
    case CheckedIntegerAdd(target, _, _) => target.document == reference
    case CopyValue(_, target) => target.document == reference
    case RemoveValue(target) => target.document == reference && target.pointer != ""
    case ReplaceOpaque(document, _, _) => document == reference
  }

  predicate Deletes(o: Operation, reference: DocumentRef) {
    o.RemoveValue? && o.target.document == reference && o.target.pointer == ""
  }

  predicate MayPut(d: Definition, reference: DocumentRef) {
    || (SpecOf(d.documents, reference.slot).Some? && SpecOf(d.documents, reference.slot).value.allowInitialJson)
    || exists i :: 0 <= i < |d.operations| && Puts(d.operations[i], reference)
  }

  predicate MayDelete(d: Definition, reference: DocumentRef) {
    exists i :: 0 <= i < |d.operations| && Deletes(d.operations[i], reference)
  }

  method PathIntent(d: Definition, reference: DocumentRef) returns (intent: Intent)
    ensures intent == Intent(true, MayPut(d, reference), MayDelete(d, reference))
  {
    var spec := SpecOf(d.documents, reference.slot);
    var initial := spec.Some? && spec.value.allowInitialJson;
    intent := Intent(true, initial, false);
    for i := 0 to |d.operations|
      invariant intent.get
      invariant intent.put <==> initial || exists j :: 0 <= j < i && Puts(d.operations[j], reference)
      invariant intent.delete <==> exists j :: 0 <= j < i && Deletes(d.operations[j], reference)
    {
      match d.operations[i]
      case SetValue(target, _) =>
        if target.document == reference {
          intent := intent.(put := true);
        }
      case CheckedIntegerAdd(target, _, _) =>
        if target.document == reference {
          intent := intent.(put := true);
        }
      case CopyValue(_, target) =>
        if target.document == reference {
          intent := intent.(put := true);
        }
      case RemoveValue(target) =>
        if target.document == reference {
          intent := if target.pointer == "" then intent.(delete := true) else intent.(put := true);
        }
      case ReplaceOpaque(document, _, _) =>
        if document == reference {
          intent := intent.(put := true);
        }
    }
  }
}
