/** What every evaluated program respects. */
module ProgramTheorems {
  import opened Prelude
  import opened ObjectPaths
  import opened ProgramModel
  import opened ProgramDefinitions
  import opened ProgramResolution
  import opened ProgramEngine

  // ---- Working documents stay within the definition's intents

  /** An initial value is bound only where the slot permits it. */
  predicate InitialsAllowed(d: Definition, documents: seq<ResolvedDocument>) {
    forall k :: 0 <= k < |documents| && documents[k].initialJson.Some? ==>
      MayWrite(d, documents[k].reference) && MayPut(d, documents[k].reference)
  }

  predicate DocumentOk(d: Definition, doc: ResolvedDocument, stored: Option<Versioned>, w: Working) {
    && w.reference == doc.reference && w.path == doc.path && w.observed == ObservedOf(stored)
    && w.before == (if stored.Some? then stored.value.value else None)
    && (!w.dirty ==> w.current == w.before)
    && (w.dirty ==> MayWrite(d, doc.reference))
    && (w.dirty ==> if w.current.Some? then MayPut(d, doc.reference) else MayDelete(d, doc.reference))
  }

  predicate WorkOk(d: Definition, r: Resolved, snapshot: Snapshot, work: seq<Working>) {
    && |work| == |r.documents|
    && forall k :: 0 <= k < |work| ==> DocumentOk(d, r.documents[k], StoredAt(snapshot, r.documents[k].path), work[k])
  }

  lemma InitialIsOk(d: Definition, r: Resolved, snapshot: Snapshot)
    requires InitialsAllowed(d, r.documents)
    ensures WorkOk(d, r, snapshot, Initial(r, snapshot))
  {
  }

  lemma TargetIsWritable(d: Definition, o: Operation)
    requires OperationOk(d.documents, o)
    ensures MayWrite(d, TargetOf(o))
  {
  }

  /** A live result needs a putting operation, a missing one a deleting operation. */
  lemma ContentMatchesIntent(o: Operation, i: Invocation, r: Resolved, work: seq<Working>, w: Working)
    requires Fits(r, work) && NewContent(o, i, r, work, w).Some?
    ensures if NewContent(o, i, r, work, w).value.value.Some? then Puts(o, TargetOf(o)) else Deletes(o, TargetOf(o))
  {
  }

  lemma OperateKeepsOk(d: Definition, k: nat, i: Invocation, r: Resolved, snapshot: Snapshot, work: seq<Working>)
    requires k < |d.operations| && OperationOk(d.documents, d.operations[k])
    requires Fits(r, work) && WorkOk(d, r, snapshot, work) && Operate(d.operations[k], i, r, work).Some?
    requires forall ref :: ref in r.byReference ==>
               r.byReference[ref] < |r.documents| && r.documents[r.byReference[ref]].reference == ref
    ensures WorkOk(d, r, snapshot, Operate(d.operations[k], i, r, work).value)
  {
    var o := d.operations[k];
    var at := r.byReference[TargetOf(o)];
    TargetIsWritable(d, o);
    ContentMatchesIntent(o, i, r, work, work[at]);
    assert DocumentOk(d, r.documents[at], StoredAt(snapshot, r.documents[at].path), work[at]);
  }

  lemma {:induction false} RunKeepsOk(d: Definition, n: nat, i: Invocation, r: Resolved, snapshot: Snapshot, work: seq<Working>)
    requires n <= |d.operations| && forall k :: 0 <= k < n ==> OperationOk(d.documents, d.operations[k])
    requires Fits(r, work) && WorkOk(d, r, snapshot, work) && RunOperations(d.operations[..n], i, r, work).Ok?
    requires forall ref :: ref in r.byReference ==>
               r.byReference[ref] < |r.documents| && r.documents[r.byReference[ref]].reference == ref
    ensures WorkOk(d, r, snapshot, RunOperations(d.operations[..n], i, r, work).value)
  {
    if n > 0 {
      assert d.operations[..n][..n - 1] == d.operations[..n - 1];
      RunKeepsOk(d, n - 1, i, r, snapshot, work);
      OperateKeepsOk(d, n - 1, i, r, snapshot, RunOperations(d.operations[..n - 1], i, r, work).value);
    }
  }

  // ---- Participants

  function ParticipantPaths(s: seq<Participant>): (r: seq<ObjectPath>)
    ensures |r| == |s|
  {
    seq(|s|, k requires 0 <= k < |s| => s[k].path)
  }

  lemma {:induction false} InsertKeepsPaths(s: seq<Participant>, p: Participant)
    requires Ascending(ParticipantPaths(s)) && p.path !in ParticipantPaths(s)
    ensures ParticipantPaths(InsertParticipant(s, p)) == InsertPath(ParticipantPaths(s), p.path)
  {
    if s != [] {
      assert s[0].path == ParticipantPaths(s)[0];
      assert ParticipantPaths(s)[1..] == ParticipantPaths(s[1..]);
      if !PathLess(p.path, s[0].path) {
        InsertKeepsPaths(s[1..], p);
      }
    }
  }

  lemma {:induction false} InsertMembers(s: seq<Participant>, p: Participant, q: Participant)
    requires q in InsertParticipant(s, p)
    ensures q in s || q == p
  {
    if s != [] && !PathLess(p.path, s[0].path) && q != s[0] {
      InsertMembers(s[1..], p, q);
    }
  }

  function WorkPaths(work: seq<Working>): (r: seq<ObjectPath>)
    ensures |r| == |work|
  {
    seq(|work|, k requires 0 <= k < |work| => work[k].path)
  }

  /** Sorting the participants gives the canonical order of their paths. */
  lemma {:induction false} ParticipantsInOrder(work: seq<Working>)
    requires Distinct(WorkPaths(work))
    ensures ParticipantPaths(Participants(work)) == Canonical(WorkPaths(work))
  {
    if work != [] {
      var n := |work| - 1;
      var rest := work[..n];
      var paths := WorkPaths(work);
      assert paths[..n] == WorkPaths(rest);
      ParticipantsInOrder(rest);
      assert forall k :: 0 <= k < n ==> paths[k] != paths[n];
      assert work[n].path == paths[n] && paths[n] !in paths[..n];
      InsertKeepsPaths(Participants(rest), ParticipantOf(work[n]));
    } else {
      assert WorkPaths(work) == [];
    }
  }

  /** Every participant stems from a working document. */
  lemma {:induction false} ParticipantFrom(work: seq<Working>, q: Participant) returns (k: nat)
    requires q in Participants(work)
    ensures k < |work| && q == ParticipantOf(work[k])
  {
    var n := |work| - 1;
    InsertMembers(Participants(work[..n]), ParticipantOf(work[n]), q);
    if q == ParticipantOf(work[n]) {
      k := n;
    } else {
      k := ParticipantFrom(work[..n], q);
    }
  }

  /** What one participant may do, given its document and what was read there. */
  predicate ParticipantOk(d: Definition, doc: ResolvedDocument, stored: Option<Versioned>, p: Participant) {
    && p.path == doc.path && p.expected == ObservedOf(stored)
    && (p.write.Some? ==> MayWrite(d, doc.reference))
    && (p.write.Some? && p.write.value.value.Some? ==> MayPut(d, doc.reference))
    && (p.write.Some? && p.write.value.value.None? ==> MayDelete(d, doc.reference))
  }

  /** With initial values only where their slots permit them, every participant stays within its intents. */
  lemma BundleWithinIntents(d: Definition, i: Invocation, r: Resolved, snapshot: Snapshot, size: Stored -> nat)
    requires WellFormed(d) && ResolvedOk(r) && InitialsAllowed(d, r.documents)
    requires Evaluated(d, i, r, snapshot, size).Ok?
    ensures var bundle := Evaluated(d, i, r, snapshot, size).value;
            && ParticipantPaths(bundle.participants) == r.documentPaths == r.allPaths
            && Ascending(r.documentPaths)
            && forall k :: 0 <= k < |bundle.participants| ==>
                 exists j :: 0 <= j < |r.documents|
                   && ParticipantOk(d, r.documents[j], StoredAt(snapshot, r.documents[j].path), bundle.participants[k])
  {
    var bundle := Evaluated(d, i, r, snapshot, size).value;
    var after := FinalWork(d, i, r, snapshot, size);
    assert WorkPaths(after) == PathsOf(r.documents);
    ParticipantsInOrder(after);
    forall k | 0 <= k < |bundle.participants|
      ensures exists j :: 0 <= j < |r.documents|
                && ParticipantOk(d, r.documents[j], StoredAt(snapshot, r.documents[j].path), bundle.participants[k])
    {
      var j := ParticipantFrom(after, bundle.participants[k]);
      assert DocumentOk(d, r.documents[j], StoredAt(snapshot, r.documents[j].path), after[j]);
      assert ParticipantOk(d, r.documents[j], StoredAt(snapshot, r.documents[j].path), bundle.participants[k]);
    }
  }

  lemma FinalWork(d: Definition, i: Invocation, r: Resolved, snapshot: Snapshot, size: Stored -> nat) returns (after: seq<Working>)
    requires WellFormed(d) && ResolvedOk(r) && InitialsAllowed(d, r.documents)
    requires Evaluated(d, i, r, snapshot, size).Ok?
    ensures WorkOk(d, r, snapshot, after) && Participants(after) == Evaluated(d, i, r, snapshot, size).value.participants
  {
    InitialIsOk(d, r, snapshot);
    assert d.operations[..|d.operations|] == d.operations;
    RunKeepsOk(d, |d.operations|, i, r, snapshot, Initial(r, snapshot));
    after := RunOperations(d.operations, i, r, Initial(r, snapshot)).value;
  }

  // ---- The write cap

  lemma {:induction false} DirtyWithinWritable(d: Definition, r: Resolved, snapshot: Snapshot, work: seq<Working>, n: nat)
    requires WorkOk(d, r, snapshot, work) && n <= |work|
    ensures DirtyCount(work[..n]) <= WritableCount(d, r.documents[..n])
  {
    if n > 0 {
      DirtyWithinWritable(d, r, snapshot, work, n - 1);
      assert work[..n][..n - 1] == work[..n - 1] && r.documents[..n][..n - 1] == r.documents[..n - 1];
      assert DocumentOk(d, r.documents[n - 1], StoredAt(snapshot, r.documents[n - 1].path), work[n - 1]);
    }
  }

  lemma DirtyBounded(d: Definition, i: Invocation, r: Resolved, snapshot: Snapshot)
    requires forall k :: 0 <= k < |d.operations| ==> OperationOk(d.documents, d.operations[k])
    requires InitialsAllowed(d, r.documents) && Fits(r, Initial(r, snapshot))
    requires forall ref :: ref in r.byReference ==>
               r.byReference[ref] < |r.documents| && r.documents[r.byReference[ref]].reference == ref
    requires RunOperations(d.operations, i, r, Initial(r, snapshot)).Ok?
    ensures DirtyCount(RunOperations(d.operations, i, r, Initial(r, snapshot)).value) <= WritableCount(d, r.documents)
  {
    var work := Initial(r, snapshot);
    InitialIsOk(d, r, snapshot);
    assert d.operations[..|d.operations|] == d.operations;
    RunKeepsOk(d, |d.operations|, i, r, snapshot, work);
    var after := RunOperations(d.operations, i, r, work).value;
    DirtyWithinWritable(d, r, snapshot, after, |after|);
    assert after[..|after|] == after && r.documents[..|after|] == r.documents;
  }

  lemma CapNeedsWrites(d: Definition, i: Invocation, r: Resolved, snapshot: Snapshot, size: Stored -> nat)
    requires Fits(r, Initial(r, snapshot)) && Evaluated(d, i, r, snapshot, size) == Err(TooManyWrites)
    ensures RunOperations(d.operations, i, r, Initial(r, snapshot)).Ok?
    ensures DirtyCount(RunOperations(d.operations, i, r, Initial(r, snapshot)).value) > d.caps.maxWrites
  {
  }

  lemma BoundWithinCaps(d: Definition, c: Context, i: Invocation)
    requires DistinctSlots(d.documents) && forall k :: 0 <= k < |d.documents| ==> SlotOk(d.documents[k], c, i)
    ensures InitialsAllowed(d, DocumentsOf(d.documents, i))
    ensures WritableCount(d, DocumentsOf(d.documents, i)) <= MaximumWrites(d.documents)
  {
    assert d.documents[..|d.documents|] == d.documents;
    BoundInitialsAllowed(d, c, i, |d.documents|);
    CountsWithinCaps(d, c, i, |d.documents|);
  }

  /** For a validated definition and an accepted invocation, canonicalized or not, the cap on writes never fires. */
  lemma WriteCapNeverFires(d: Definition, c: Context, i: Invocation, canonical: map<ObjectPath, ObjectPath>,
                           r: Resolved, snapshot: Snapshot, size: Stored -> nat)
    requires Accepted(d, c, i, canonical, r)
    ensures Evaluated(d, i, r, snapshot, size) != Err(TooManyWrites)
  {
    BoundWithinCaps(d, c, i);
    var documents := DocumentsOf(d.documents, i);
    RenamingKeepsAllowed(d, documents, canonical);
    RenamingKeepsCount(d, documents, canonical, |documents|);
    assert documents[..|documents|] == documents && r.documents[..|documents|] == r.documents;
    if Evaluated(d, i, r, snapshot, size) == Err(TooManyWrites) {
      CapNeedsWrites(d, i, r, snapshot, size);
      DirtyBounded(d, i, r, snapshot);
    }
  }

  lemma {:induction false} RenamingKeepsCount(d: Definition, documents: seq<ResolvedDocument>, canonical: map<ObjectPath, ObjectPath>, n: nat)
    requires n <= |documents|
    ensures WritableCount(d, Renamed(documents, canonical)[..n]) == WritableCount(d, documents[..n])
  {
    if n > 0 {
      RenamingKeepsCount(d, documents, canonical, n - 1);
      assert documents[..n][..n - 1] == documents[..n - 1];
      assert Renamed(documents, canonical)[..n][..n - 1] == Renamed(documents, canonical)[..n - 1];
    }
  }

  /** Resolution checks every initial value against its slot. */
  lemma {:induction false} BoundInitialsAllowed(d: Definition, c: Context, i: Invocation, n: nat)
    requires DistinctSlots(d.documents) && n <= |d.documents|
    requires forall k :: 0 <= k < |d.documents| ==> SlotOk(d.documents[k], c, i)
    ensures InitialsAllowed(d, DocumentsOf(d.documents[..n], i))
  {
    if n > 0 {
      BoundInitialsAllowed(d, c, i, n - 1);
      assert d.documents[..n][..n - 1] == d.documents[..n - 1];
      var spec := d.documents[n - 1];
      SlotInitialsAllowed(d, c, i, n - 1);
    }
  }

  lemma SlotInitialsAllowed(d: Definition, c: Context, i: Invocation, s: nat)
    requires DistinctSlots(d.documents) && s < |d.documents| && SlotOk(d.documents[s], c, i)
    ensures InitialsAllowed(d, SlotDocuments(d.documents[s].name, BindingsOf(i, d.documents[s].name)))
  {
    var spec := d.documents[s];
    var bindings := BindingsOf(i, spec.name);
    SpecFound(d.documents, s);
    forall k | 0 <= k < |bindings| && bindings[k].initialJson.Some?
      ensures spec.allowInitialJson && spec.access.ReadWrite?
    {
      assert BindingOk(spec, c, i, bindings[k]);
    }
  }

  lemma RenamingKeepsAllowed(d: Definition, documents: seq<ResolvedDocument>, canonical: map<ObjectPath, ObjectPath>)
    requires InitialsAllowed(d, documents)
    ensures InitialsAllowed(d, Renamed(documents, canonical))
  {
  }

  /** A validated definition, an invocation that resolves, and its documents under any aliases. */
  ghost predicate Accepted(d: Definition, c: Context, i: Invocation, canonical: map<ObjectPath, ObjectPath>, r: Resolved) {
    && WellFormed(d) && Bindable(d, c, i) && ResolvedOk(r)
    && r.documents == Renamed(DocumentsOf(d.documents, i), canonical)
  }

  lemma AcceptedInitials(d: Definition, c: Context, i: Invocation, canonical: map<ObjectPath, ObjectPath>, r: Resolved)
    requires Accepted(d, c, i, canonical, r)
    ensures InitialsAllowed(d, r.documents)
  {
    BoundWithinCaps(d, c, i);
    RenamingKeepsAllowed(d, DocumentsOf(d.documents, i), canonical);
  }

  /**
    For every accepted invocation the participants are the locked and read paths in strict order; every live write has
    put intent, every tombstone delete intent, read-only slots are never written, and each carries the head that was read.
   */
  lemma BundleRespectsIntents(d: Definition, c: Context, i: Invocation, canonical: map<ObjectPath, ObjectPath>,
                              r: Resolved, snapshot: Snapshot, size: Stored -> nat)
    requires Accepted(d, c, i, canonical, r) && Evaluated(d, i, r, snapshot, size).Ok?
    ensures var bundle := Evaluated(d, i, r, snapshot, size).value;
            && ParticipantPaths(bundle.participants) == r.documentPaths == r.allPaths
            && Ascending(r.documentPaths)
            && forall k :: 0 <= k < |bundle.participants| ==>
                 exists j :: 0 <= j < |r.documents|
                   && ParticipantOk(d, r.documents[j], StoredAt(snapshot, r.documents[j].path), bundle.participants[k])
  {
    AcceptedInitials(d, c, i, canonical, r);
    BundleWithinIntents(d, i, r, snapshot, size);
  }
}
