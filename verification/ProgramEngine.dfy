/** Evaluating a resolved program over one snapshot into a compare-and-swap bundle. */
module ProgramEngine {
  import opened Prelude
  import opened ObjectPaths
  import opened JsonPointer
  import opened ProgramModel
  import opened ProgramDefinitions
  import opened ProgramResolution

  // ---- Snapshot and working documents

  predicate SnapshotOk(r: Resolved, snapshot: Snapshot) {
    forall p :: p in snapshot ==>
      p in r.documentPaths && snapshot[p].version != "" && (snapshot[p].value.Some? <==> snapshot[p].contentType.Some?)
  }

  function StoredAt(snapshot: Snapshot, p: ObjectPath): Option<Versioned> {
    if p in snapshot then Some(snapshot[p]) else None
  }

  /** `Absent` also accepts a tombstone. */
  predicate HeadMatches(expected: ExpectedHead, stored: Option<Versioned>) {
    match expected
    case AnyHead => true
    case AbsentHead => stored.None? || stored.value.value.None?
    case VersionHead(version) => stored.Some? && stored.value.version == version
  }

  function ObservedOf(stored: Option<Versioned>): Observed {
    if stored.None? then NeverExisted else AtVersion(stored.value.version)
  }

  function NewWorking(doc: ResolvedDocument, stored: Option<Versioned>): Working {
    var before := if stored.Some? then stored.value.value else None;
    if before.Some? then
      Working(doc.reference, doc.path, ObservedOf(stored), before, before, stored.value.contentType, false)
    else if doc.initialJson.Some? then
      Working(doc.reference, doc.path, ObservedOf(stored), None, Some(JsonValue(doc.initialJson.value)), Some(JSON_TYPE), true)
    else Working(doc.reference, doc.path, ObservedOf(stored), None, None, None, false)
  }

  function Initial(r: Resolved, snapshot: Snapshot): (work: seq<Working>)
    ensures |work| == |r.documents|
  {
    seq(|r.documents|, k requires 0 <= k < |r.documents| => NewWorking(r.documents[k], StoredAt(snapshot, r.documents[k].path)))
  }

  predicate Fits(r: Resolved, work: seq<Working>) {
    |work| == |r.documents| && forall ref :: ref in r.byReference ==> r.byReference[ref] < |work|
  }

  // ---- Values of a step

  function ViewOf(w: Working, view: View): Option<Stored> {
    match view
    case Before => w.before
    case Current => w.current
  }

  function DocumentJson(source: ValueRef, r: Resolved, work: seq<Working>): Option<Json>
    requires Fits(r, work)
  {
    if source.value.document !in r.byReference then None
    else JsonFromStored(ViewOf(work[r.byReference[source.value.document]], source.view), source.value.pointer)
  }

  function SourceValue(source: ValueSource, i: Invocation, r: Resolved, work: seq<Working>): Option<Json>
    requires Fits(r, work)
  {
    match source
    case FromInput(input) => InputOf(input, i)
    case FromDocument(value) => DocumentJson(value, r, work)
  }

  predicate AssertionHolds(a: Assertion, i: Invocation, r: Resolved, work: seq<Working>)
    requires Fits(r, work)
  {
    match a
    case Exists(document) => document in r.byReference && work[r.byReference[document]].before.Some?
    case Absent(document) => document in r.byReference && work[r.byReference[document]].before.None?
    case JsonEqual(actual, expected) =>
      var found := DocumentJson(ValueRef(actual, Before), r, work);
      found.Some? && InputOf(expected, i) == found
    case IntegerCompare(actual, comparison, expected, numeric) =>
      var found := DocumentJson(ValueRef(actual, Before), r, work);
      var wanted := InputOf(expected, i);
      && found.Some? && wanted.Some?
      && CheckedInteger(found.value, numeric).Some? && CheckedInteger(wanted.value, numeric).Some?
      && Compared(CheckedInteger(found.value, numeric).value, CheckedInteger(wanted.value, numeric).value, comparison)
  }

  // ---- One operation

  datatype Content = Content(value: Option<Stored>, contentType: Option<string>)

  function SetContent(w: Working, pointer: string, v: Json): Option<Content> {
    if pointer == "" then Some(Content(Some(JsonValue(v)), Some(JSON_TYPE)))
    else if w.current.None? || !w.current.value.JsonValue? || Tokens(pointer).None? then None
    else
      match Set(w.current.value.json, Tokens(pointer).value, v)
      case None => None
      case Some(edited) => Some(Content(Some(JsonValue(edited)), w.contentType))
  }

  function RemoveContent(w: Working, pointer: string): Option<Content> {
    if pointer == "" then Some(Content(None, None))
    else if w.current.None? || !w.current.value.JsonValue? || Tokens(pointer).None? then None
    else
      match Remove(w.current.value.json, Tokens(pointer).value)
      case None => None
      case Some(edited) => Some(Content(Some(JsonValue(edited)), w.contentType))
  }

  function AddContent(w: Working, pointer: string, delta: Json, numeric: IntegerType): Option<Content> {
    if w.current.None? || !w.current.value.JsonValue? || Tokens(pointer).None? then None
    else
      var (v, tokens) := (w.current.value.json, Tokens(pointer).value);
      match Select(v, tokens)
      case None => None
      case Some(found) =>
        if CheckedInteger(found, numeric).None? then None
        else
          match Added(CheckedInteger(found, numeric).value, delta, numeric)
          case None => None
          case Some(sum) =>
            if Set(v, tokens, Int(sum)).None? then None
            else Some(Content(Some(JsonValue(Set(v, tokens, Int(sum)).value)), w.contentType))
  }

  function TargetOf(o: Operation): DocumentRef {
    match o
    case SetValue(target, _) => target.document
    case RemoveValue(target) => target.document
    case CheckedIntegerAdd(target, _, _) => target.document
    case CopyValue(_, target) => target.document
    case ReplaceOpaque(document, _, _) => document
  }

  function NewContent(o: Operation, i: Invocation, r: Resolved, work: seq<Working>, w: Working): Option<Content>
    requires Fits(r, work)
  {
    match o
    case SetValue(target, value) =>
      var v := SourceValue(value, i, r, work);
      if v.None? then None else SetContent(w, target.pointer, v.value)
    case RemoveValue(target) => RemoveContent(w, target.pointer)
    case CheckedIntegerAdd(target, delta, numeric) =>
      if InputOf(delta, i).None? then None else AddContent(w, target.pointer, InputOf(delta, i).value, numeric)
    case CopyValue(source, target) =>
      var v := DocumentJson(source, r, work);
      if v.None? then None else SetContent(w, target.pointer, v.value)
    case ReplaceOpaque(_, input, contentType) =>
      if input in i.blobs then Some(Content(Some(Opaque(i.blobs[input])), Some(contentType))) else None
  }

  /** The document with new content, which makes it dirty. */
  function WithContent(w: Working, content: Option<Content>): Option<Working> {
    if content.None? then None
    else Some(w.(current := content.value.value, contentType := content.value.contentType, dirty := true))
  }

  /** An operation changes the content of its target and nothing else. */
  function Operate(o: Operation, i: Invocation, r: Resolved, work: seq<Working>): Option<seq<Working>>
    requires Fits(r, work)
  {
    if TargetOf(o) !in r.byReference then None
    else
      var at := r.byReference[TargetOf(o)];
      match WithContent(work[at], NewContent(o, i, r, work, work[at]))
      case None => None
      case Some(edited) => Some(work[at := edited])
  }

  // ---- The same in place

  /** The cell that holds a document's current JSON, if it has any. */
  method CurrentJson(w: Working) returns (cell: Option<JsonCell>)
    ensures cell.Some? <==> w.current.Some? && w.current.value.JsonValue?
    ensures cell.Some? ==> fresh(cell.value) && cell.value.value == w.current.value.json
  {
    if w.current.None? || w.current.value.Opaque? {
      return None;
    }
    var json := new JsonCell(w.current.value.json);
    return Some(json);
  }

  /** Replace the whole document, or edit its JSON in place. */
  method SetDocumentJson(w: Working, pointer: string, replacement: Json) returns (r: Option<Working>)
    ensures r == WithContent(w, SetContent(w, pointer, replacement))
  {
    if pointer == "" {
      return Some(w.(current := Some(JsonValue(replacement)), contentType := Some(JSON_TYPE), dirty := true));
    }
    var cell := CurrentJson(w);
    if cell.None? {
      return None;
    }
    var ok := cell.value.SetAt(pointer, replacement);
    if !ok {
      return None;
    }
    return Some(w.(current := Some(JsonValue(cell.value.value)), dirty := true));
  }

  method RemoveDocumentJson(w: Working, pointer: string) returns (r: Option<Working>)
    ensures r == WithContent(w, RemoveContent(w, pointer))
  {
    if pointer == "" {
      return Some(w.(current := None, contentType := None, dirty := true));
    }
    var cell := CurrentJson(w);
    if cell.None? {
      return None;
    }
    var ok := cell.value.RemoveAt(pointer);
    if !ok {
      return None;
    }
    return Some(w.(current := Some(JsonValue(cell.value.value)), dirty := true));
  }

  /** A signed delta adds or subtracts; a delta beyond the signed range only adds. */
  method AddUnsigned(current: nat, delta: Json) returns (sum: Option<nat>)
    requires current <= U64_MAX
    ensures sum == if delta.Int? && I64_MIN <= delta.n <= U64_MAX && 0 <= current + delta.n <= U64_MAX
                   then Some(current + delta.n) else None
  {
    if !delta.Int? {
      return None;
    }
    if I64_MIN <= delta.n <= I64_MAX {
      if delta.n < 0 {
        return if current < -delta.n then None else Some(current - -delta.n);
      }
      return if current + delta.n > U64_MAX then None else Some(current + delta.n);
    }
    if !(0 <= delta.n <= U64_MAX) {
      return None;
    }
    return if current + delta.n > U64_MAX then None else Some(current + delta.n);
  }

  /** The sum stays exact: it is representable in its type and within its bounds, or there is none. */
  method AddInteger(found: Json, delta: Json, numeric: IntegerType) returns (sum: Option<int>)
    ensures sum == if CheckedInteger(found, numeric).None? then None
                   else Added(CheckedInteger(found, numeric).value, delta, numeric)
  {
    if !found.Int? || !Represents(numeric, found.n) || !WithinBounds(numeric, found.n) {
      return None;
    }
    if numeric.signed {
      if !delta.Int? || !(I64_MIN <= delta.n <= I64_MAX) {
        return None;
      }
      if !(I64_MIN <= found.n + delta.n <= I64_MAX) {
        return None;
      }
      sum := Some(found.n + delta.n);
    } else {
      var unsigned := AddUnsigned(found.n, delta);
      if unsigned.None? {
        return None;
      }
      sum := Some(unsigned.value);
    }
    if !WithinBounds(numeric, sum.value) {
      return None;
    }
  }

  method AddDocumentJson(w: Working, pointer: string, delta: Json, numeric: IntegerType) returns (r: Option<Working>)
    ensures r == WithContent(w, AddContent(w, pointer, delta, numeric))
  {
    var cell := CurrentJson(w);
    if cell.None? {
      return None;
    }
    var found := cell.value.Lookup(pointer);
    if found.None? {
      return None;
    }
    var sum := AddInteger(found.value, delta, numeric);
    if sum.None? {
      return None;
    }
    var ok := cell.value.SetAt(pointer, Int(sum.value));
    if !ok {
      return None;
    }
    return Some(w.(current := Some(JsonValue(cell.value.value)), dirty := true));
  }

  /**
    One operation on the working documents. JSON is edited through its pointers in a cell; a failed operation leaves
    every document as it was, and a successful one changes no document but its target.
   */
  method EvaluateOperation(o: Operation, i: Invocation, r: Resolved, working: array<Working>) returns (ok: bool)
    requires Fits(r, working[..])
    modifies working
    ensures ok <==> Operate(o, i, r, old(working[..])).Some?
    ensures working[..] == if ok then Operate(o, i, r, old(working[..])).value else old(working[..])
    ensures forall k :: 0 <= k < working.Length && !(ok && k == r.byReference[TargetOf(o)]) ==> working[k] == old(working[k])
  {
    if TargetOf(o) !in r.byReference {
      return false;
    }
    var at := r.byReference[TargetOf(o)];
    var edited: Option<Working>;
    match o {
      case SetValue(target, source) =>
        var value := SourceValue(source, i, r, working[..]);
        if value.None? {
          return false;
        }
        edited := SetDocumentJson(working[at], target.pointer, value.value);
      case RemoveValue(target) =>
        edited := RemoveDocumentJson(working[at], target.pointer);
      case CheckedIntegerAdd(target, delta, numeric) =>
        var value := InputOf(delta, i);
        if value.None? {
          return false;
        }
        edited := AddDocumentJson(working[at], target.pointer, value.value, numeric);
      case CopyValue(source, target) =>
        var value := DocumentJson(source, r, working[..]);
        if value.None? {
          return false;
        }
        edited := SetDocumentJson(working[at], target.pointer, value.value);
      case ReplaceOpaque(_, input, contentType) =>
        if input !in i.blobs {
          return false;
        }
        edited := Some(working[at].(current := Some(Opaque(i.blobs[input])), contentType := Some(contentType), dirty := true));
    }
    if edited.None? {
      return false;
    }
    working[at] := edited.value;
    return true;
  }

  // ---- The whole evaluation

  function FirstFailure(assertions: seq<Assertion>, i: Invocation, r: Resolved, work: seq<Working>): Option<nat>
    requires Fits(r, work)
  {
    if assertions == [] then None
    else
      var n := |assertions| - 1;
      var earlier := FirstFailure(assertions[..n], i, r, work);
      if earlier.Some? then earlier
      else if AssertionHolds(assertions[n], i, r, work) then None
      else Some(n)
  }

  function RunOperations(operations: seq<Operation>, i: Invocation, r: Resolved, work: seq<Working>): (result: Result<seq<Working>, nat>)
    requires Fits(r, work)
    ensures result.Ok? ==> Fits(r, result.value)
  {
    if operations == [] then Ok(work)
    else
      var n := |operations| - 1;
      match RunOperations(operations[..n], i, r, work)
      case Err(index) => Err(index)
      case Ok(before) =>
        match Operate(operations[n], i, r, before)
        case None => Err(n)
        case Some(after) => Ok(after)
  }

  predicate DocumentWithin(caps: Caps, w: Working, size: Stored -> nat) {
    && (w.before.Some? ==> size(w.before.value) <= caps.maxDocumentBytes)
    && (w.current.Some? ==> size(w.current.value) <= caps.maxDocumentBytes)
  }

  predicate WithinLimits(caps: Caps, work: seq<Working>, size: Stored -> nat) {
    forall k :: 0 <= k < |work| ==> DocumentWithin(caps, work[k], size)
  }

  function DirtyCount(work: seq<Working>): nat {
    if work == [] then 0
    else DirtyCount(work[..|work| - 1]) + if work[|work| - 1].dirty then 1 else 0
  }

  function Outputs(returned: seq<Returned>, r: Resolved, work: seq<Working>): Result<map<string, Json>, string>
    requires Fits(r, work)
  {
    if returned == [] then Ok(map[])
    else
      var n := |returned| - 1;
      match Outputs(returned[..n], r, work)
      case Err(name) => Err(name)
      case Ok(earlier) =>
        match DocumentJson(returned[n].value, r, work)
        case None => Err(returned[n].name)
        case Some(value) => Ok(earlier[returned[n].name := value])
  }

  function ParticipantOf(w: Working): Participant {
    Participant(w.path, w.observed, if w.dirty then Some(Write(w.current, w.contentType)) else None)
  }

  /** Ordered insertion by path. */
  function InsertParticipant(s: seq<Participant>, p: Participant): seq<Participant> {
    if s == [] || PathLess(p.path, s[0].path) then [p] + s else [s[0]] + InsertParticipant(s[1..], p)
  }

  function Participants(work: seq<Working>): seq<Participant> {
    if work == [] then []
    else InsertParticipant(Participants(work[..|work| - 1]), ParticipantOf(work[|work| - 1]))
  }

  /** The result of a program is a function of its snapshot. */
  function Evaluated(d: Definition, i: Invocation, r: Resolved, snapshot: Snapshot, size: Stored -> nat): Result<Bundle, EngineError>
    requires forall ref :: ref in r.byReference ==> r.byReference[ref] < |r.documents|
  {
    var work := Initial(r, snapshot);
    if !SnapshotOk(r, snapshot) then Err(InvalidSnapshot)
    else if exists k :: 0 <= k < |r.documents| && !HeadMatches(r.documents[k].expectedHead, StoredAt(snapshot, r.documents[k].path))
    then Err(HeadPrecondition)
    else if !WithinLimits(d.caps, work, size) then Err(LimitExceeded)
    else if FirstFailure(d.assertions, i, r, work).Some? then Err(AssertionFailed(FirstFailure(d.assertions, i, r, work).value))
    else
      match RunOperations(d.operations, i, r, work)
      case Err(index) => Err(OperationFailed(index))
      case Ok(after) => Concluded(d, r, after, size)
  }

  function Concluded(d: Definition, r: Resolved, after: seq<Working>, size: Stored -> nat): Result<Bundle, EngineError>
    requires Fits(r, after)
  {
    if !WithinLimits(d.caps, after, size) then Err(LimitExceeded)
    else if DirtyCount(after) > d.caps.maxWrites then Err(TooManyWrites)
    else
      match Outputs(d.returned, r, after)
      case Err(name) => Err(ReturnFailed(name))
      case Ok(outputs) => Ok(Bundle(Participants(after), outputs))
  }

  method CheckLimits(caps: Caps, working: array<Working>, size: Stored -> nat) returns (ok: bool)
    ensures ok <==> WithinLimits(caps, working[..], size)
  {
    for k := 0 to working.Length
      invariant forall j :: 0 <= j < k ==> DocumentWithin(caps, working[..][j], size)
    {
      if !DocumentWithin(caps, working[k], size) {
        assert !DocumentWithin(caps, working[..][k], size);
        return false;
      }
    }
    return true;
  }

  method CheckHeads(r: Resolved, snapshot: Snapshot) returns (ok: bool)
    ensures ok <==> forall k :: 0 <= k < |r.documents| ==>
                      HeadMatches(r.documents[k].expectedHead, StoredAt(snapshot, r.documents[k].path))
  {
    for k := 0 to |r.documents|
      invariant forall j :: 0 <= j < k ==> HeadMatches(r.documents[j].expectedHead, StoredAt(snapshot, r.documents[j].path))
    {
      if !HeadMatches(r.documents[k].expectedHead, StoredAt(snapshot, r.documents[k].path)) {
        return false;
      }
    }
    return true;
  }

  method CheckAssertions(d: Definition, i: Invocation, r: Resolved, work: seq<Working>) returns (failed: Option<nat>)
    requires Fits(r, work)
    ensures failed == FirstFailure(d.assertions, i, r, work)
  {
    for k := 0 to |d.assertions|
      invariant FirstFailure(d.assertions[..k], i, r, work).None?
    {
      assert d.assertions[..k + 1][..k] == d.assertions[..k];
      if !AssertionHolds(d.assertions[k], i, r, work) {
        FailureStays(d.assertions, k + 1, i, r, work);
        return Some(k);
      }
    }
    assert d.assertions[..|d.assertions|] == d.assertions;
    return None;
  }

  lemma {:induction false} FailureStays(assertions: seq<Assertion>, k: nat, i: Invocation, r: Resolved, work: seq<Working>)
    requires Fits(r, work) && k <= |assertions| && FirstFailure(assertions[..k], i, r, work).Some?
    ensures FirstFailure(assertions, i, r, work) == FirstFailure(assertions[..k], i, r, work)
  {
    if k < |assertions| {
      assert assertions[..|assertions| - 1][..k] == assertions[..k];
      FailureStays(assertions[..|assertions| - 1], k, i, r, work);
    } else {
      assert assertions[..k] == assertions;
    }
  }

  lemma {:induction false} ErrorStays(operations: seq<Operation>, k: nat, i: Invocation, r: Resolved, work: seq<Working>)
    requires Fits(r, work) && k <= |operations| && RunOperations(operations[..k], i, r, work).Err?
    ensures RunOperations(operations, i, r, work) == RunOperations(operations[..k], i, r, work)
  {
    if k < |operations| {
      assert operations[..|operations| - 1][..k] == operations[..k];
      ErrorStays(operations[..|operations| - 1], k, i, r, work);
    } else {
      assert operations[..k] == operations;
    }
  }

  /** All operations in order, each in place. */
  method RunAll(d: Definition, i: Invocation, r: Resolved, working: array<Working>) returns (failed: Option<nat>)
    requires Fits(r, working[..])
    modifies working
    ensures failed.None? ==> RunOperations(d.operations, i, r, old(working[..])) == Ok(working[..])
    ensures failed.Some? ==> RunOperations(d.operations, i, r, old(working[..])) == Err(failed.value)
  {
    ghost var before := working[..];
    for k := 0 to |d.operations|
      invariant RunOperations(d.operations[..k], i, r, before) == Ok(working[..])
    {
      assert d.operations[..k + 1][..k] == d.operations[..k];
      var ok := EvaluateOperation(d.operations[k], i, r, working);
      if !ok {
        ErrorStays(d.operations, k + 1, i, r, before);
        return Some(k);
      }
    }
    assert d.operations[..|d.operations|] == d.operations;
    return None;
  }

  lemma {:induction false} OutputErrorStays(returned: seq<Returned>, k: nat, r: Resolved, work: seq<Working>)
    requires Fits(r, work) && k <= |returned| && Outputs(returned[..k], r, work).Err?
    ensures Outputs(returned, r, work) == Outputs(returned[..k], r, work)
  {
    if k < |returned| {
      assert returned[..|returned| - 1][..k] == returned[..k];
      OutputErrorStays(returned[..|returned| - 1], k, r, work);
    } else {
      assert returned[..k] == returned;
    }
  }

  method Conclude(d: Definition, r: Resolved, working: array<Working>, size: Stored -> nat) returns (result: Result<Bundle, EngineError>)
    requires Fits(r, working[..])
    ensures result == Concluded(d, r, working[..], size)
  {
    var within := CheckLimits(d.caps, working, size);
    if !within {
      return Err(LimitExceeded);
    }
    var work := working[..];
    var writes := 0;
    for k := 0 to |work|
      invariant writes == DirtyCount(work[..k])
    {
      assert work[..k + 1][..k] == work[..k];
      if work[k].dirty {
        writes := writes + 1;
      }
    }
    assert work[..|work|] == work;
    if writes > d.caps.maxWrites {
      return Err(TooManyWrites);
    }
    var outputs: map<string, Json> := map[];
    for k := 0 to |d.returned|
      invariant Outputs(d.returned[..k], r, work) == Ok(outputs)
    {
      assert d.returned[..k + 1][..k] == d.returned[..k];
      var value := DocumentJson(d.returned[k].value, r, work);
      if value.None? {
        OutputErrorStays(d.returned, k + 1, r, work);
        return Err(ReturnFailed(d.returned[k].name));
      }
      outputs := outputs[d.returned[k].name := value.value];
    }
    assert d.returned[..|d.returned|] == d.returned;
    return Ok(Bundle(Participants(work), outputs));
  }

  method Evaluate(d: Definition, i: Invocation, r: Resolved, snapshot: Snapshot, size: Stored -> nat) returns (result: Result<Bundle, EngineError>)
    requires ResolvedOk(r)
    ensures result == Evaluated(d, i, r, snapshot, size)
  {
    if !SnapshotOk(r, snapshot) {
      return Err(InvalidSnapshot);
    }
    var heads := CheckHeads(r, snapshot);
    if !heads {
      return Err(HeadPrecondition);
    }
    var initial := Initial(r, snapshot);
    var working := new Working[|initial|](k requires 0 <= k < |initial| => initial[k]);
    assert working[..] == initial;
    var within := CheckLimits(d.caps, working, size);
    if !within {
      return Err(LimitExceeded);
    }
    var broken := CheckAssertions(d, i, r, working[..]);
    if broken.Some? {
      return Err(AssertionFailed(broken.value));
    }
    var failed := RunAll(d, i, r, working);
    if failed.Some? {
      return Err(OperationFailed(failed.value));
    }
    result := Conclude(d, r, working, size);
  }
}
