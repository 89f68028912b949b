/** Bounded atomic programs: definitions, invocations, stored documents and write bundles. */
module ProgramModel {
  import opened Prelude
  import opened Text
  import opened ObjectPaths
  import opened JsonPointer

  const DEFINITION_SCHEMA_VERSION: nat := 1
  const MAX_COMPONENT_BYTES: nat := 256
  const MAX_OBJECT_PATH_BYTES: nat := 4096
  const JSON_TYPE := "application/json"

  // ---- Definitions

  datatype Part = Literal(text: string) | Field(name: string)
  type Template = seq<Part>
  datatype PathTemplate = PathTemplate(tenant: Template, bucket: Template, path: Template)

  datatype Cardinality = One | Optional | Repeated(max: nat)
  datatype Access = ReadOnly | ReadWrite

  datatype DocumentSpec = DocumentSpec(
    name: string, path: PathTemplate, cardinality: Cardinality, access: Access, allowInitialJson: bool)

  datatype DocumentRef = DocumentRef(slot: string, index: nat)
  datatype PointerRef = PointerRef(document: DocumentRef, pointer: string)
  datatype View = Before | Current
  datatype ValueRef = ValueRef(value: PointerRef, view: View)
  datatype InputValue = Given(value: Json) | Input(name: string)
  datatype ValueSource = FromInput(input: InputValue) | FromDocument(source: ValueRef)
  datatype Comparison = Eq | Ne | Lt | Le | Gt | Ge

  /** Both integer types carry optional bounds; only the range of representable values differs. */
  datatype IntegerType = IntegerType(signed: bool, min: Option<int>, max: Option<int>)

  datatype Assertion =
    | Exists(document: DocumentRef)
    | Absent(document: DocumentRef)
    | JsonEqual(actual: PointerRef, expected: InputValue)
    | IntegerCompare(actual: PointerRef, comparison: Comparison, expected: InputValue, numeric: IntegerType)

  datatype Operation =
    | SetValue(target: PointerRef, value: ValueSource)
    | RemoveValue(target: PointerRef)
    | CheckedIntegerAdd(target: PointerRef, delta: InputValue, numeric: IntegerType)
    | CopyValue(source: ValueRef, target: PointerRef)
    | ReplaceOpaque(document: DocumentRef, input: string, contentType: string)

  datatype Returned = Returned(name: string, value: ValueRef)

  datatype Caps = Caps(maxPaths: nat, maxWrites: nat, maxOperations: nat, maxInputBytes: nat, maxDocumentBytes: nat)

  datatype Definition = Definition(
    schemaVersion: nat, documents: seq<DocumentSpec>, assertions: seq<Assertion>,
    operations: seq<Operation>, returned: seq<Returned>, caps: Caps)

  // ---- Invocations and stored documents

  datatype ExpectedHead = AnyHead | AbsentHead | VersionHead(version: string)

  datatype Binding = Binding(
    path: ObjectPath, templateValues: map<string, string>, expectedHead: ExpectedHead, initialJson: Option<Json>)

  /** `encodedBytes` is the length of the encoded invocation. */
  datatype Invocation = Invocation(
    programPathHash: nat, commandId: string, fingerprint: string, arguments: map<string, string>,
    inputs: map<string, Json>, blobs: map<string, seq<int>>, bindings: map<string, seq<Binding>>, encodedBytes: nat)

  datatype Stored = JsonValue(json: Json) | Opaque(bytes: seq<int>)
  datatype Versioned = Versioned(version: string, value: Option<Stored>, contentType: Option<string>)
  type Snapshot = map<ObjectPath, Versioned>

  datatype Observed = NeverExisted | AtVersion(version: string)
  datatype Write = Write(value: Option<Stored>, contentType: Option<string>)
  datatype Participant = Participant(path: ObjectPath, expected: Observed, write: Option<Write>)
  datatype Bundle = Bundle(participants: seq<Participant>, outputs: map<string, Json>)

  datatype EngineError =
    | InvalidDefinition | InvalidInvocation | TooManyPaths | TooManyWrites | InvalidSnapshot | HeadPrecondition
    | LimitExceeded | AssertionFailed(index: nat) | OperationFailed(index: nat) | ReturnFailed(name: string)

  datatype ResolvedDocument = ResolvedDocument(
    reference: DocumentRef, path: ObjectPath, expectedHead: ExpectedHead, initialJson: Option<Json>)

  datatype Resolved = Resolved(
    documents: seq<ResolvedDocument>, documentPaths: seq<ObjectPath>, byReference: map<DocumentRef, nat>,
    allPaths: seq<ObjectPath>)

  datatype Working = Working(
    reference: DocumentRef, path: ObjectPath, observed: Observed, before: Option<Stored>,
    current: Option<Stored>, contentType: Option<string>, dirty: bool)

  function Maximum(c: Cardinality): nat {
    if c.Repeated? then c.max else 1
  }

  predicate Accepts(c: Cardinality, count: nat) {
    match c
    case One => count == 1
    case Optional => count <= 1
    case Repeated(max) => count <= max
  }

  /** The first specification of a slot. */
  function SpecOf(documents: seq<DocumentSpec>, slot: string): Option<DocumentSpec> {
    if documents == [] then None
    else if documents[0].name == slot then Some(documents[0])
    else SpecOf(documents[1..], slot)
  }

  // ---- Templates and addresses

  function Expand(t: Template, values: map<string, string>): Option<string> {
    if t == [] then Some("")
    else
      match Expand(t[1..], values)
      case None => None
      case Some(rest) =>
        match t[0]
        case Literal(text) => Some(text + rest)
        case Field(name) => if name in values && SafeSegment(values[name]) then Some(values[name] + rest) else None
  }

  predicate SafeSegment(value: string) {
    value != "" && forall i :: 0 <= i < |value| ==> value[i] !in {'/', '{', '}', '\0'}
  }

  function Placeholders(t: Template): set<string> {
    set i | 0 <= i < |t| && t[i].Field? :: t[i].name
  }

  function PathFields(p: PathTemplate): set<string> {
    Placeholders(p.tenant) + Placeholders(p.bucket) + Placeholders(p.path)
  }

  predicate NoControl(s: string) {
    forall i :: 0 <= i < |s| ==> !IsControl(s[i])
  }

  predicate CanonicalComponent(s: string) {
    s != "" && Bytes(s) <= MAX_COMPONENT_BYTES && '/' !in s && NoControl(s)
  }

  predicate CanonicalAddress(p: ObjectPath) {
    && CanonicalComponent(p.tenant) && CanonicalComponent(p.bucket)
    && p.path != "" && Bytes(p.path) <= MAX_OBJECT_PATH_BYTES && NoControl(p.path)
    && forall i :: 0 <= i < |Split(p.path)| ==> Split(p.path)[i] !in {"", ".", ".."}
  }

  function ExpandPath(t: PathTemplate, values: map<string, string>): Option<ObjectPath> {
    var (tenant, bucket, path) := (Expand(t.tenant, values), Expand(t.bucket, values), Expand(t.path, values));
    if tenant.None? || bucket.None? || path.None? then None
    else
      var address := ObjectPath(tenant.value, bucket.value, path.value);
      if CanonicalAddress(address) then Some(address) else None
  }

  // ---- Values

  const I64_MIN := -0x8000_0000_0000_0000
  const I64_MAX := 0x7FFF_FFFF_FFFF_FFFF
  const U64_MAX := 0xFFFF_FFFF_FFFF_FFFF

  predicate Represents(numeric: IntegerType, n: int) {
    if numeric.signed then I64_MIN <= n <= I64_MAX else 0 <= n <= U64_MAX
  }

  predicate WithinBounds(numeric: IntegerType, n: int) {
    (numeric.min.Some? ==> numeric.min.value <= n) && (numeric.max.Some? ==> n <= numeric.max.value)
  }

  /** An exact JSON integer of the type, within its bounds. */
  function CheckedInteger(v: Json, numeric: IntegerType): Option<int> {
    if v.Int? && Represents(numeric, v.n) && WithinBounds(numeric, v.n) then Some(v.n) else None
  }

  /** Signed addition wants a signed delta; unsigned addition takes any 64-bit delta and must not leave the type. */
  function Added(current: int, delta: Json, numeric: IntegerType): Option<int> {
    if !delta.Int? || !(I64_MIN <= delta.n <= if numeric.signed then I64_MAX else U64_MAX) then None
    else if !Represents(numeric, current + delta.n) || !WithinBounds(numeric, current + delta.n) then None
    else Some(current + delta.n)
  }

  predicate Compared(actual: int, expected: int, comparison: Comparison) {
    match comparison
    case Eq => actual == expected
    case Ne => actual != expected
    case Lt => actual < expected
    case Le => actual <= expected
    case Gt => actual > expected
    case Ge => actual >= expected
  }

  function InputOf(source: InputValue, invocation: Invocation): Option<Json> {
    match source
    case Given(value) => Some(value)
    case Input(name) => if name in invocation.inputs then Some(invocation.inputs[name]) else None
  }

  function SelectAt(v: Json, pointer: string): Option<Json> {
    if Tokens(pointer).None? then None else Select(v, Tokens(pointer).value)
  }

  function JsonFromStored(value: Option<Stored>, pointer: string): Option<Json> {
    if value.Some? && value.value.JsonValue? then SelectAt(value.value.json, pointer) else None
  }
}
