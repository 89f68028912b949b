/** Concurrent programs that commit by compare-and-swap on every observed head. */
module Serializability {
  import opened Prelude
  import opened ObjectPaths
  import opened ProgramModel
  import opened ProgramDefinitions
  import opened ProgramResolution
  import opened ProgramEngine
  import opened ProgramTheorems

  datatype Program = Program(definition: Definition, invocation: Invocation, resolved: Resolved)

  /** A running program and what it has read so far, each path at its own time. */
  datatype Running = Running(program: Program, seen: map<ObjectPath, Option<Versioned>>)

  /** What took effect, in order: a committed bundle, or an ordinary write beside the programs. */
  datatype Effect =
    | Committed(program: Program, bundle: Bundle, versions: map<ObjectPath, string>)
    | Written(path: ObjectPath, document: Versioned)

  datatype World = World(
    store: Snapshot, ever: set<(ObjectPath, Versioned)>, running: map<nat, Running>, effects: seq<Effect>)

  datatype Event =
    | Begin(task: nat, program: Program)
    | Read(task: nat, path: ObjectPath)
    | Commit(task: nat, versions: map<ObjectPath, string>)
    | Put(path: ObjectPath, document: Versioned)
    | Abandon(task: nat)

  /** A validated definition with a resolved invocation of it. */
  ghost predicate ProgramOk(p: Program) {
    WellFormed(p.definition) && ResolvedOk(p.resolved) && InitialsAllowed(p.definition, p.resolved.documents)
  }

  /** Every accepted invocation is such a program. */
  lemma AcceptedIsProgram(p: Program, c: Context, canonical: map<ObjectPath, ObjectPath>)
    requires Accepted(p.definition, c, p.invocation, canonical, p.resolved)
    ensures ProgramOk(p)
  {
    AcceptedInitials(p.definition, c, p.invocation, canonical, p.resolved);
  }

  /** The result of a program, as a function of what it read. */
  ghost function Outcome(p: Program, snapshot: Snapshot, size: Stored -> nat): Result<Bundle, EngineError>
    requires ProgramOk(p)
  {
    Evaluated(p.definition, p.invocation, p.resolved, snapshot, size)
  }

  function SeenSnapshot(seen: map<ObjectPath, Option<Versioned>>): Snapshot {
    map p | p in seen && seen[p].Some? :: seen[p].value
  }

  /** The documents of a program as they are now. */
  function CurrentSnapshot(store: Snapshot, paths: seq<ObjectPath>): Snapshot {
    map p | p in store && p in paths :: store[p]
  }

  predicate HeadsMatch(store: Snapshot, participants: seq<Participant>) {
    forall k :: 0 <= k < |participants| ==> participants[k].expected == ObservedOf(StoredAt(store, participants[k].path))
  }

  function Apply(store: Snapshot, participants: seq<Participant>, versions: map<ObjectPath, string>): Snapshot {
    if participants == [] then store
    else
      var p := participants[|participants| - 1];
      var before := Apply(store, participants[..|participants| - 1], versions);
      if p.write.None? || p.path !in versions then before
      else before[p.path := Versioned(versions[p.path], p.write.value.value, p.write.value.contentType)]
  }

  /** No document at this path ever had this version. */
  predicate Unused(ever: set<(ObjectPath, Versioned)>, path: ObjectPath, version: string) {
    forall known :: known in ever && known.0 == path ==> known.1.version != version
  }

  predicate VersionsUnused(ever: set<(ObjectPath, Versioned)>, participants: seq<Participant>, versions: map<ObjectPath, string>) {
    forall k :: 0 <= k < |participants| && participants[k].write.Some? ==>
      participants[k].path in versions && Unused(ever, participants[k].path, versions[participants[k].path])
  }

  function Documents(store: Snapshot): set<(ObjectPath, Versioned)> {
    set p | p in store :: (p, store[p])
  }

  ghost function Step(w: World, size: Stored -> nat, event: Event): Option<World> {
    match event
    case Begin(task, program) =>
      if task in w.running || !ProgramOk(program) then None
      else Some(w.(running := w.running[task := Running(program, map[])]))
    case Read(task, path) =>
      if task !in w.running then None
      else
        var t := w.running[task];
        if path !in t.program.resolved.documentPaths || path in t.seen then None
        else Some(w.(running := w.running[task := t.(seen := t.seen[path := StoredAt(w.store, path)])]))
    case Commit(task, versions) =>
      if task !in w.running || !ProgramOk(w.running[task].program) then None
      else
        var t := w.running[task];
        var outcome := Outcome(t.program, SeenSnapshot(t.seen), size);
        if !(forall p :: p in t.program.resolved.documentPaths ==> p in t.seen) || outcome.Err? then None
        else if !HeadsMatch(w.store, outcome.value.participants) || !VersionsUnused(w.ever, outcome.value.participants, versions)
        then None
        else
          var store := Apply(w.store, outcome.value.participants, versions);
          Some(World(store, w.ever + Documents(store), w.running - {task},
                     w.effects + [Committed(t.program, outcome.value, versions)]))
    case Put(path, document) =>
      if !Unused(w.ever, path, document.version) then None
      else
        var store := w.store[path := document];
        Some(w.(store := store, ever := w.ever + Documents(store), effects := w.effects + [Written(path, document)]))
    case Abandon(task) => Some(w.(running := w.running - {task}))
  }

  ghost function After(size: Stored -> nat, events: seq<Event>): Option<World> {
    if events == [] then Some(World(map[], {}, map[], []))
    else
      var before := After(size, events[..|events| - 1]);
      if before.None? then None else Step(before.value, size, events[|events| - 1])
  }

  /** One at a time: each program reads the store as its predecessors left it and must give the same bundle. */
  ghost function Serial(size: Stored -> nat, effects: seq<Effect>): Option<Snapshot> {
    if effects == [] then Some(map[])
    else
      var before := Serial(size, effects[..|effects| - 1]);
      if before.None? then None
      else
        match effects[|effects| - 1]
        case Written(path, document) => Some(before.value[path := document])
        case Committed(program, bundle, versions) =>
          if ProgramOk(program) && Outcome(program, CurrentSnapshot(before.value, program.resolved.documentPaths), size) == Ok(bundle)
          then Some(Apply(before.value, bundle.participants, versions))
          else None
  }

  // ---- Versions determine content

  predicate VersionsDetermine(ever: set<(ObjectPath, Versioned)>) {
    forall a, b :: a in ever && b in ever && a.0 == b.0 && a.1.version == b.1.version ==> a == b
  }

  predicate SeenKnown(ever: set<(ObjectPath, Versioned)>, seen: map<ObjectPath, Option<Versioned>>) {
    forall p :: p in seen && seen[p].Some? ==> (p, seen[p].value) in ever
  }

  predicate StoreKnown(ever: set<(ObjectPath, Versioned)>, store: Snapshot) {
    forall p :: p in store ==> (p, store[p]) in ever
  }

  ghost predicate RunningOk(ever: set<(ObjectPath, Versioned)>, t: Running) {
    ProgramOk(t.program) && SeenKnown(ever, t.seen) && forall p :: p in t.seen ==> p in t.program.resolved.documentPaths
  }

  ghost predicate WorldInv(w: World) {
    && VersionsDetermine(w.ever) && StoreKnown(w.ever, w.store)
    && forall task :: task in w.running ==> RunningOk(w.ever, w.running[task])
  }

  lemma RunningOkLater(ever: set<(ObjectPath, Versioned)>, more: set<(ObjectPath, Versioned)>, t: Running)
    requires RunningOk(ever, t) && ever <= more
    ensures RunningOk(more, t)
  {
  }

  /** Every path of a bundle is checked, with the head the program saw there. */
  lemma ParticipantAt(p: Program, snapshot: Snapshot, size: Stored -> nat, path: ObjectPath) returns (k: nat)
    requires ProgramOk(p) && Outcome(p, snapshot, size).Ok? && path in p.resolved.documentPaths
    ensures k < |Outcome(p, snapshot, size).value.participants|
    ensures var q := Outcome(p, snapshot, size).value.participants[k];
            q.path == path && q.expected == ObservedOf(StoredAt(snapshot, path))
  {
    BundleWithinIntents(p.definition, p.invocation, p.resolved, snapshot, size);
    var participants := Outcome(p, snapshot, size).value.participants;
    k :| 0 <= k < |p.resolved.documentPaths| && p.resolved.documentPaths[k] == path;
    assert ParticipantPaths(participants)[k] == path;
    var j :| 0 <= j < |p.resolved.documents|
             && ParticipantOk(p.definition, p.resolved.documents[j], StoredAt(snapshot, p.resolved.documents[j].path), participants[k]);
  }

  /** A document whose head still matches what was seen is the document that was seen. */
  lemma SameHeadSameDocument(ever: set<(ObjectPath, Versioned)>, store: Snapshot, seen: map<ObjectPath, Option<Versioned>>, p: ObjectPath)
    requires VersionsDetermine(ever) && StoreKnown(ever, store) && SeenKnown(ever, seen) && p in seen
    requires ObservedOf(StoredAt(store, p)) == ObservedOf(seen[p])
    ensures StoredAt(store, p) == seen[p]
  {
    if p in store && seen[p].Some? {
      assert (p, store[p]) in ever && (p, seen[p].value) in ever;
      assert (p, store[p]).0 == (p, seen[p].value).0;
    }
  }

  /** If all heads still match, the program would read now exactly what it read then. */
  lemma ReadsAreCurrent(w: World, task: nat, size: Stored -> nat)
    requires WorldInv(w) && task in w.running
    requires var t := w.running[task];
             && (forall p :: p in t.program.resolved.documentPaths ==> p in t.seen)
             && ProgramOk(t.program) && Outcome(t.program, SeenSnapshot(t.seen), size).Ok?
             && HeadsMatch(w.store, Outcome(t.program, SeenSnapshot(t.seen), size).value.participants)
    ensures var t := w.running[task]; CurrentSnapshot(w.store, t.program.resolved.documentPaths) == SeenSnapshot(t.seen)
  {
    var t := w.running[task];
    var paths := t.program.resolved.documentPaths;
    assert RunningOk(w.ever, t);
    forall p | p in paths
      ensures StoredAt(w.store, p) == t.seen[p]
    {
      var k := ParticipantAt(t.program, SeenSnapshot(t.seen), size, p);
      assert StoredAt(SeenSnapshot(t.seen), p) == t.seen[p];
      SameHeadSameDocument(w.ever, w.store, t.seen, p);
    }
    SnapshotsAgree(w.store, paths, t.seen);
  }

  lemma SnapshotsAgree(store: Snapshot, paths: seq<ObjectPath>, seen: map<ObjectPath, Option<Versioned>>)
    requires forall p :: p in paths <==> p in seen
    requires forall p :: p in paths ==> StoredAt(store, p) == seen[p]
    ensures CurrentSnapshot(store, paths) == SeenSnapshot(seen)
  {
    assert CurrentSnapshot(store, paths).Keys == SeenSnapshot(seen).Keys;
  }

  // ---- Commits keep versions unique

  predicate Fresh(ever: set<(ObjectPath, Versioned)>, store: Snapshot) {
    forall p :: p in store ==> (p, store[p]) in ever || Unused(ever, p, store[p].version)
  }

  lemma {:induction false} ApplyIsFresh(
      ever: set<(ObjectPath, Versioned)>, store: Snapshot, participants: seq<Participant>, versions: map<ObjectPath, string>)
    requires StoreKnown(ever, store) && VersionsUnused(ever, participants, versions)
    ensures Fresh(ever, Apply(store, participants, versions))
  {
    if participants != [] {
      ApplyIsFresh(ever, store, participants[..|participants| - 1], versions);
    }
  }

  lemma FreshKeepsDetermine(ever: set<(ObjectPath, Versioned)>, store: Snapshot)
    requires VersionsDetermine(ever) && Fresh(ever, store)
    ensures VersionsDetermine(ever + Documents(store)) && StoreKnown(ever + Documents(store), store)
  {
    var more := ever + Documents(store);
    forall a, b | a in more && b in more && a.0 == b.0 && a.1.version == b.1.version
      ensures a == b
    {
      DeterminedPair(ever, store, a, b);
    }
  }

  lemma DeterminedPair(ever: set<(ObjectPath, Versioned)>, store: Snapshot, a: (ObjectPath, Versioned), b: (ObjectPath, Versioned))
    requires VersionsDetermine(ever) && Fresh(ever, store)
    requires (a in ever || a in Documents(store)) && (b in ever || b in Documents(store))
    requires a.0 == b.0 && a.1.version == b.1.version
    ensures a == b
  {
  }

  lemma CommitKeepsInv(w: World, size: Stored -> nat, task: nat, versions: map<ObjectPath, string>)
    requires WorldInv(w) && Step(w, size, Commit(task, versions)).Some?
    ensures WorldInv(Step(w, size, Commit(task, versions)).value)
  {
    var participants := Outcome(w.running[task].program, SeenSnapshot(w.running[task].seen), size).value.participants;
    var store := Apply(w.store, participants, versions);
    ApplyIsFresh(w.ever, w.store, participants, versions);
    FreshKeepsDetermine(w.ever, store);
    RunningStays(w, w.ever + Documents(store));
  }

  lemma RunningStays(w: World, more: set<(ObjectPath, Versioned)>)
    requires WorldInv(w) && w.ever <= more
    ensures forall task :: task in w.running ==> RunningOk(more, w.running[task])
  {
    forall task | task in w.running
      ensures RunningOk(more, w.running[task])
    {
      RunningOkLater(w.ever, more, w.running[task]);
    }
  }

  lemma PutKeepsInv(w: World, size: Stored -> nat, path: ObjectPath, document: Versioned)
    requires WorldInv(w) && Step(w, size, Put(path, document)).Some?
    ensures WorldInv(Step(w, size, Put(path, document)).value)
  {
    var store := w.store[path := document];
    FreshKeepsDetermine(w.ever, store);
    RunningStays(w, w.ever + Documents(store));
  }

  lemma ReadKeepsInv(w: World, size: Stored -> nat, task: nat, path: ObjectPath)
    requires WorldInv(w) && Step(w, size, Read(task, path)).Some?
    ensures WorldInv(Step(w, size, Read(task, path)).value)
  {
    ReadKeepsRunning(w.ever, w.store, w.running[task], path);
  }

  lemma ReadKeepsRunning(ever: set<(ObjectPath, Versioned)>, store: Snapshot, t: Running, path: ObjectPath)
    requires RunningOk(ever, t) && StoreKnown(ever, store) && path in t.program.resolved.documentPaths
    ensures RunningOk(ever, t.(seen := t.seen[path := StoredAt(store, path)]))
  {
  }

  lemma StepKeepsInv(w: World, size: Stored -> nat, event: Event)
    requires WorldInv(w) && Step(w, size, event).Some?
    ensures WorldInv(Step(w, size, event).value)
  {
    match event
    case Begin(task, program) =>
    case Read(task, path) => ReadKeepsInv(w, size, task, path);
    case Commit(task, versions) => CommitKeepsInv(w, size, task, versions);
    case Put(path, document) => PutKeepsInv(w, size, path, document);
    case Abandon(task) =>
  }

  lemma {:induction false} RunsKeepInv(size: Stored -> nat, events: seq<Event>)
    requires After(size, events).Some?
    ensures WorldInv(After(size, events).value)
  {
    if events != [] {
      var rest := events[..|events| - 1];
      RunsKeepInv(size, rest);
      StepKeepsInv(After(size, rest).value, size, events[|events| - 1]);
    }
  }

  lemma SerialAppend(size: Stored -> nat, effects: seq<Effect>, effect: Effect, before: Snapshot)
    requires Serial(size, effects) == Some(before)
    ensures Serial(size, effects + [effect]) ==
            match effect
            case Written(path, document) => Some(before[path := document])
            case Committed(program, bundle, versions) =>
              if ProgramOk(program) && Outcome(program, CurrentSnapshot(before, program.resolved.documentPaths), size) == Ok(bundle)
              then Some(Apply(before, bundle.participants, versions)) else None
  {
    assert (effects + [effect])[..|effects|] == effects;
  }

  lemma CommitExtendsSerial(w: World, size: Stored -> nat, task: nat, versions: map<ObjectPath, string>)
    requires WorldInv(w) && Serial(size, w.effects) == Some(w.store) && Step(w, size, Commit(task, versions)).Some?
    ensures var w' := Step(w, size, Commit(task, versions)).value; Serial(size, w'.effects) == Some(w'.store)
  {
    var t := w.running[task];
    ReadsAreCurrent(w, task, size);
    var bundle := Outcome(t.program, SeenSnapshot(t.seen), size).value;
    SerialAppend(size, w.effects, Committed(t.program, bundle, versions), w.store);
  }

  lemma StepExtendsSerial(w: World, size: Stored -> nat, event: Event)
    requires WorldInv(w) && Serial(size, w.effects) == Some(w.store) && Step(w, size, event).Some?
    ensures var w' := Step(w, size, event).value; Serial(size, w'.effects) == Some(w'.store)
  {
    if event.Commit? {
      CommitExtendsSerial(w, size, event.task, event.versions);
    } else if event.Put? {
      SerialAppend(size, w.effects, Written(event.path, event.document), w.store);
    }
  }

  /**
    Every concurrent history, with reads at any time and any number of failed or abandoned programs, leaves the store
    that running the committed programs one at a time in commit order leaves, with the same bundles and outputs.
   */
  lemma {:induction false} HistoriesAreSerial(size: Stored -> nat, events: seq<Event>)
    requires After(size, events).Some?
    ensures Serial(size, After(size, events).value.effects) == Some(After(size, events).value.store)
  {
    if events != [] {
      var rest := events[..|events| - 1];
      HistoriesAreSerial(size, rest);
      RunsKeepInv(size, rest);
      StepExtendsSerial(After(size, rest).value, size, events[|events| - 1]);
    }
  }
}
