/** Every interleaving of apply, snapshot build, snapshot install, crash and restart. */
module DurabilityRuns {
  import opened Prelude
  import opened RaftMembership
  import opened RaftMachine
  import opened RaftRuns
  import opened Durability

  /** `durable` counts the log entries whose effect is on disk; `memory` is absent while the process is down. */
  datatype Node = Node(
    disk: Disk, durable: nat, memory: Option<Machine>,
    applying: seq<Entry>, building: Option<Machine>, installing: Option<Machine>)

  datatype Event =
    | Append(count: nat)                    // journal a batch of committed entries
    | Absorb                                // then fold it into memory
    | BuildStart | BuildSave                // clone the state, later write it
    | InstallSave(through: nat, generation: nat) | InstallSwap  // write a received snapshot, then replace memory
    | Crash | Restart

  function Down(disk: Disk, durable: nat): Node {
    Node(disk, durable, None, [], None, None)
  }

  function Fresh(config: Config): Node {
    Node(Disk(None, map[]), 0, Some(Start(config.maxEntries, config.maxBytes)), [], None, None)
  }

  /** `states[i]` is the state after the first `i` entries of the log. */
  ghost predicate IsTrace(states: seq<Machine>, log: seq<Entry>, config: Config) {
    && |states| == |log| + 1 && states[0] == Start(config.maxEntries, config.maxBytes)
    && (forall i :: 0 <= i < |log| ==> Steps(states[i], log[i], states[i + 1]))
    && (forall i :: 0 <= i <= |log| ==> Next(states[i].lastApplied) == i && ConfigMatches(states[i], config))
  }

  ghost predicate Steps(m: Machine, e: Entry, m': Machine) {
    ApplyEntry(m, e).Some? && ApplyEntry(m, e).value.0 == m'
  }

  /** Equal up to the number of snapshots built. */
  predicate Same(m: Machine, m': Machine) {
    m.(generation := 0) == m'.(generation := 0)
  }

  predicate Valid(m: Machine) {
    MembershipValid(m.decisions.cluster, m.membership)
  }

  /** The next committed entries, checked and written to the journal. */
  function Journaled(log: seq<Entry>, n: Node, memory: Machine, count: nat): Option<Node> {
    var next := Next(memory.lastApplied);
    if n.applying != [] || n.installing.Some? || next + count > |log| then None
    else
      var entries := log[next..next + count];
      if !Consecutive(memory.lastApplied, entries) then Some(n)
      else Some(n.(disk := n.disk.(journal := Appended(n.disk.journal, entries)),
                   durable := next + count, applying := entries))
  }

  /**
    One event, or nothing where it cannot happen. Applying and installing exclude each other, and so do building
    and installing; a build runs beside an apply. Received snapshots are states of the same committed log.
   */
  ghost function Step(log: seq<Entry>, states: seq<Machine>, config: Config, n: Node, event: Event): Option<Node>
    requires IsTrace(states, log, config)
  {
    if n.memory.None? then
      if event.Restart? then
        var loaded := Load(n.disk, config);
        Some(if loaded.Ok? then n.(memory := Some(loaded.value)) else n)
      else if event.Crash? then Some(n)
      else None
    else
      var memory := n.memory.value;
      match event
      case Append(count) => Journaled(log, n, memory, count)
      case Absorb =>
        var m := Replay(memory, n.applying);
        if m.None? then None else Some(n.(memory := m, applying := []))
      case BuildStart =>
        if n.building.Some? || n.installing.Some? then None
        else
          var m := memory.(generation := memory.generation + 1);
          Some(n.(memory := Some(m), building := if Valid(m) then Some(m) else None))
      case BuildSave =>
        if n.building.None? then None
        else Some(n.(disk := Saved(n.disk, SnapshotOf(n.building.value), false), building := None))
      case InstallSave(through, generation) =>
        if n.applying != [] || n.building.Some? || n.installing.Some? then None
        else if !(Next(memory.lastApplied) <= through <= |log|) || !Valid(states[through]) then None
        else
          var m := states[through].(generation := generation);
          Some(n.(disk := Saved(n.disk, SnapshotOf(m), true), durable := through, installing := Some(m)))
      case InstallSwap =>
        if n.installing.None? then None else Some(n.(memory := n.installing, installing := None))
      case Crash => Some(Down(n.disk, n.durable))
      case Restart => None
  }

  ghost function After(log: seq<Entry>, states: seq<Machine>, config: Config, events: seq<Event>): Option<Node>
    requires IsTrace(states, log, config)
  {
    if events == [] then Some(Fresh(config))
    else
      var before := After(log, states, config, events[..|events| - 1]);
      if before.None? then None else Step(log, states, config, before.value, events[|events| - 1])
  }

  // ---- What every event keeps

  function SnapshotEnd(disk: Disk): nat {
    if disk.snapshot.None? then 0 else Next(disk.snapshot.value.lastLog)
  }

  /** The snapshot holds a prefix of the log, and the journal exactly the durable entries after it. */
  ghost predicate DiskOk(log: seq<Entry>, states: seq<Machine>, disk: Disk, durable: nat)
    requires |states| == |log| + 1
  {
    && SnapshotEnd(disk) <= durable <= |log|
    && (disk.snapshot.Some? ==>
          MetaMatches(disk.snapshot.value) && Same(disk.snapshot.value.state, states[SnapshotEnd(disk)]))
    && (forall i :: i in disk.journal <==> SnapshotEnd(disk) <= i < durable)
    && (forall i :: i in disk.journal ==> disk.journal[i] == log[i])
  }

  ghost predicate MemoryOk(log: seq<Entry>, states: seq<Machine>, n: Node)
    requires |states| == |log| + 1
  {
    n.memory.Some? ==>
      var at := Next(n.memory.value.lastApplied);
      && at <= n.durable <= |log| && Same(n.memory.value, states[at])
      && (n.installing.None? ==> SnapshotEnd(n.disk) <= at && n.applying == log[at..n.durable])
  }

  ghost predicate WorkOk(log: seq<Entry>, states: seq<Machine>, n: Node)
    requires |states| == |log| + 1
  {
    && (n.building.Some? ==>
          var at := Next(n.building.value.lastApplied);
          && at <= n.durable <= |log|
          && n.memory.Some? && n.installing.None? && Same(n.building.value, states[at])
          && SnapshotEnd(n.disk) <= at <= Next(n.memory.value.lastApplied))
    && (n.installing.Some? ==> n.applying == [] && n.durable <= |log| && Same(n.installing.value, states[n.durable]))
    && (n.memory.None? ==> n.applying == [] && n.building.None? && n.installing.None?)
  }

  ghost predicate NodeInv(log: seq<Entry>, states: seq<Machine>, n: Node)
    requires |states| == |log| + 1
  {
    DiskOk(log, states, n.disk, n.durable) && MemoryOk(log, states, n) && WorkOk(log, states, n)
  }

  lemma {:induction false} SameSteps(m: Machine, m': Machine, e: Entry, next: Machine)
    requires Same(m, m') && Steps(m', e, next)
    ensures ApplyEntry(m, e).Some? && Same(ApplyEntry(m, e).value.0, next)
    ensures ApplyEntry(m, e).value.0.generation == m.generation
  {
  }

  /** Resuming from a prefix of the log reaches the state of the longer prefix. */
  lemma {:induction false} ResumeReaches(log: seq<Entry>, states: seq<Machine>, config: Config, m: Machine, at: nat, end: nat)
    requires IsTrace(states, log, config) && at <= end <= |log| && Same(m, states[at])
    ensures Resume(m, log[at..end]).Some? && Same(Resume(m, log[at..end]).value, states[end])
    ensures Resume(m, log[at..end]).value.generation == m.generation
    decreases end - at
  {
    var entries := log[at..end];
    if entries != [] {
      assert entries[0] == log[at] && entries[1..] == log[at + 1..end];
      assert Steps(states[at], log[at], states[at + 1]);
      SameSteps(m, states[at], log[at], states[at + 1]);
      assert log[at].at.index == at;
      assert !Covered(m, entries[0]);
      ResumeReaches(log, states, config, ApplyEntry(m, log[at]).value.0, at + 1, end);
    }
  }

  lemma {:induction false} ReplayStep(m: Machine, entries: seq<Entry>, e: Entry, state: Machine, next: Machine)
    requires Replay(m, entries).Some? && Same(Replay(m, entries).value, state) && Steps(state, e, next)
    ensures Replay(m, entries + [e]).Some? && Same(Replay(m, entries + [e]).value, next)
  {
    assert (entries + [e])[..|entries|] == entries;
    SameSteps(Replay(m, entries).value, state, e, next);
  }

  lemma {:induction false} ReplayReaches(log: seq<Entry>, states: seq<Machine>, config: Config, m: Machine, at: nat, end: nat)
    requires IsTrace(states, log, config) && at <= end <= |log| && Same(m, states[at])
    ensures Replay(m, log[at..end]).Some? && Same(Replay(m, log[at..end]).value, states[end])
    decreases end
  {
    if at < end {
      ReplayReaches(log, states, config, m, at, end - 1);
      ReplayStep(m, log[at..end - 1], log[end - 1], states[end - 1], states[end]);
      assert log[at..end - 1] + [log[end - 1]] == log[at..end];
    }
  }

  /** A journal over consecutive indices is scanned in log order. */
  lemma {:induction false} ScanIsLog(log: seq<Entry>, journal: map<nat, Entry>, at: nat, end: nat)
    requires at <= end <= |log| && (forall i :: i in journal <==> at <= i < end)
    requires forall i :: i in journal ==> journal[i] == log[i]
    ensures Scan(journal) == log[at..end]
    decreases end - at
  {
    if at < end {
      assert at in journal;
      assert LeastKey(journal) == at;
      ScanIsLog(log, journal - {at}, at + 1, end);
      assert log[at..end] == [log[at]] + log[at + 1..end];
    } else {
      assert journal == map[];
    }
  }

  function SnapshotGeneration(disk: Disk): nat {
    if disk.snapshot.None? then 0 else disk.snapshot.value.state.generation
  }

  /** A restart meets no gap and no mismatch: it rebuilds the durable state or reports its invalid membership. */
  lemma {:induction false} LoadRebuilds(log: seq<Entry>, states: seq<Machine>, config: Config, disk: Disk, durable: nat)
    requires IsTrace(states, log, config) && DiskOk(log, states, disk, durable)
    ensures Load(disk, config) ==
            if Valid(states[durable]) then Ok(states[durable].(generation := SnapshotGeneration(disk)))
            else Err(InvalidMembership)
  {
    var at := SnapshotEnd(disk);
    assert ConfigMatches(states[at], config);
    ScanIsLog(log, disk.journal, at, durable);
    ResumeReaches(log, states, config, Base(disk.snapshot, config), at, durable);
  }

  lemma {:induction false} AppendExtends(log: seq<Entry>, journal: map<nat, Entry>, start: nat, from: nat, entries: seq<Entry>)
    requires start <= from && (forall i :: i in journal <==> start <= i < from)
    requires forall i :: i in journal ==> i < |log| && journal[i] == log[i]
    requires from + |entries| <= |log| && entries == log[from..from + |entries|]
    requires forall i :: 0 <= i < |entries| ==> entries[i].at.index == from + i
    ensures var grown := Appended(journal, entries);
            && (forall i :: i in grown <==> start <= i < from + |entries|)
            && forall i :: i in grown ==> grown[i] == log[i]
  {
    if entries != [] {
      var rest := entries[..|entries| - 1];
      AppendExtends(log, journal, start, from, rest);
    }
  }

  /** The next entries of the committed log always continue the applied ones without a hole. */
  lemma {:induction false} BatchIsConsecutive(log: seq<Entry>, states: seq<Machine>, config: Config, m: Machine, count: nat)
    requires IsTrace(states, log, config) && Next(m.lastApplied) + count <= |log|
    ensures Consecutive(m.lastApplied, log[Next(m.lastApplied)..Next(m.lastApplied) + count])
  {
    var next := Next(m.lastApplied);
    var entries := log[next..next + count];
    forall i | 0 <= i < |entries|
      ensures entries[i].at.index == next + i
    {
      assert Steps(states[next + i], log[next + i], states[next + i + 1]);
    }
  }

  lemma {:induction false} AppendKeepsDisk(log: seq<Entry>, states: seq<Machine>, disk: Disk, durable: nat, entries: seq<Entry>)
    requires |states| == |log| + 1 && DiskOk(log, states, disk, durable)
    requires durable + |entries| <= |log| && entries == log[durable..durable + |entries|]
    requires forall i :: 0 <= i < |entries| ==> entries[i].at.index == durable + i
    ensures DiskOk(log, states, disk.(journal := Appended(disk.journal, entries)), durable + |entries|)
  {
    AppendExtends(log, disk.journal, SnapshotEnd(disk), durable, entries);
  }

  lemma {:induction false} AppendKeepsRest(log: seq<Entry>, states: seq<Machine>, n: Node, n': Node)
    requires |states| == |log| + 1 && MemoryOk(log, states, n) && WorkOk(log, states, n)
    requires n.memory.Some? && n.installing.None? && Next(n.memory.value.lastApplied) == n.durable
    requires n'.memory == n.memory && n'.building == n.building && n'.installing.None?
    requires SnapshotEnd(n'.disk) == SnapshotEnd(n.disk)
    requires n.durable <= n'.durable <= |log| && n'.applying == log[n.durable..n'.durable]
    ensures MemoryOk(log, states, n') && WorkOk(log, states, n')
  {
  }

  lemma {:induction false} AppendKeepsNode(log: seq<Entry>, states: seq<Machine>, n: Node, n': Node, entries: seq<Entry>)
    requires |states| == |log| + 1 && NodeInv(log, states, n) && n.memory.Some? && n.installing.None?
    requires Next(n.memory.value.lastApplied) == n.durable && Consecutive(n.memory.value.lastApplied, entries)
    requires n'.disk == n.disk.(journal := Appended(n.disk.journal, entries)) && n'.durable == n.durable + |entries| <= |log|
    requires n'.applying == entries == log[n.durable..n'.durable]
    requires n'.memory == n.memory && n'.building == n.building && n'.installing.None?
    ensures NodeInv(log, states, n')
  {
    AppendKeepsDisk(log, states, n.disk, n.durable, entries);
    AppendKeepsRest(log, states, n, n');
  }

  lemma {:induction false} JournaledKeepsNode(log: seq<Entry>, states: seq<Machine>, n: Node, count: nat)
    requires |states| == |log| + 1 && NodeInv(log, states, n) && n.memory.Some?
    requires Journaled(log, n, n.memory.value, count).Some?
    ensures NodeInv(log, states, Journaled(log, n, n.memory.value, count).value)
  {
    var next := Next(n.memory.value.lastApplied);
    AllAbsorbed(log, states, n);
    if Consecutive(n.memory.value.lastApplied, log[next..next + count]) {
      AppendKeepsNode(log, states, n, Journaled(log, n, n.memory.value, count).value, log[next..next + count]);
    }
  }

  lemma {:induction false} AppendKeepsInv(log: seq<Entry>, states: seq<Machine>, config: Config, n: Node, count: nat)
    requires IsTrace(states, log, config) && NodeInv(log, states, n) && Step(log, states, config, n, Append(count)).Some?
    ensures NodeInv(log, states, Step(log, states, config, n, Append(count)).value)
  {
    JournaledKeepsNode(log, states, n, count);
  }

  lemma {:induction false} AllAbsorbed(log: seq<Entry>, states: seq<Machine>, n: Node)
    requires |states| == |log| + 1 && MemoryOk(log, states, n) && n.memory.Some? && n.applying == [] && n.installing.None?
    ensures Next(n.memory.value.lastApplied) == n.durable
  {
    assert |log[Next(n.memory.value.lastApplied)..n.durable]| == 0;
  }

  lemma {:induction false} SaveKeepsDisk(
    log: seq<Entry>, states: seq<Machine>, disk: Disk, durable: nat, m: Machine, at: nat, clearAll: bool, through: nat)
    requires |states| == |log| + 1 && DiskOk(log, states, disk, durable) && at == Next(m.lastApplied) <= |log|
    requires Same(m, states[at]) && SnapshotEnd(disk) <= at
    requires if clearAll then through == at else through == durable && at <= durable
    ensures DiskOk(log, states, Saved(disk, SnapshotOf(m), clearAll), through)
  {
  }

  lemma {:induction false} InstallKeepsInv(log: seq<Entry>, states: seq<Machine>, config: Config, n: Node, through: nat, generation: nat)
    requires IsTrace(states, log, config) && NodeInv(log, states, n)
    requires Step(log, states, config, n, InstallSave(through, generation)).Some?
    ensures NodeInv(log, states, Step(log, states, config, n, InstallSave(through, generation)).value)
  {
    var m := states[through].(generation := generation);
    AllAbsorbed(log, states, n);
    assert Next(states[through].lastApplied) == through;
    SaveKeepsDisk(log, states, n.disk, n.durable, m, through, true, through);
  }

  lemma {:induction false} AbsorbKeepsInv(log: seq<Entry>, states: seq<Machine>, config: Config, n: Node)
    requires IsTrace(states, log, config) && NodeInv(log, states, n) && n.memory.Some?
    ensures Step(log, states, config, n, Absorb).Some? && NodeInv(log, states, Step(log, states, config, n, Absorb).value)
  {
    var m := n.memory.value;
    var at := Next(m.lastApplied);
    if n.installing.None? {
      ReplayReaches(log, states, config, m, at, n.durable);
      assert Next(states[n.durable].lastApplied) == n.durable;
    }
  }

  lemma {:induction false} SwapKeepsInv(log: seq<Entry>, states: seq<Machine>, config: Config, n: Node)
    requires IsTrace(states, log, config) && NodeInv(log, states, n) && Step(log, states, config, n, InstallSwap).Some?
    ensures NodeInv(log, states, Step(log, states, config, n, InstallSwap).value)
  {
    assert Next(states[n.durable].lastApplied) == n.durable;
  }

  lemma {:induction false} RestartKeepsInv(log: seq<Entry>, states: seq<Machine>, config: Config, n: Node)
    requires IsTrace(states, log, config) && NodeInv(log, states, n) && Step(log, states, config, n, Restart).Some?
    ensures NodeInv(log, states, Step(log, states, config, n, Restart).value)
  {
    LoadRebuilds(log, states, config, n.disk, n.durable);
    assert Next(states[n.durable].lastApplied) == n.durable;
  }

  lemma {:induction false} BuildKeepsInv(log: seq<Entry>, states: seq<Machine>, config: Config, n: Node)
    requires IsTrace(states, log, config) && NodeInv(log, states, n)
    ensures Step(log, states, config, n, BuildStart).Some? ==> NodeInv(log, states, Step(log, states, config, n, BuildStart).value)
    ensures Step(log, states, config, n, BuildSave).Some? ==> NodeInv(log, states, Step(log, states, config, n, BuildSave).value)
  {
    if Step(log, states, config, n, BuildSave).Some? {
      var m := n.building.value;
      SaveKeepsDisk(log, states, n.disk, n.durable, m, Next(m.lastApplied), false, n.durable);
    }
  }

  lemma {:induction false} StepKeepsInv(log: seq<Entry>, states: seq<Machine>, config: Config, n: Node, event: Event)
    requires IsTrace(states, log, config) && NodeInv(log, states, n) && Step(log, states, config, n, event).Some?
    ensures NodeInv(log, states, Step(log, states, config, n, event).value)
    ensures n.durable <= Step(log, states, config, n, event).value.durable
  {
    match event
    case Append(count) => AppendKeepsInv(log, states, config, n, count);
    case Absorb => AbsorbKeepsInv(log, states, config, n);
    case BuildStart => BuildKeepsInv(log, states, config, n);
    case BuildSave => BuildKeepsInv(log, states, config, n);
    case InstallSave(through, generation) => InstallKeepsInv(log, states, config, n, through, generation);
    case InstallSwap => SwapKeepsInv(log, states, config, n);
    case Crash =>
    case Restart => RestartKeepsInv(log, states, config, n);
  }

  lemma {:induction false} RunsKeepInv(log: seq<Entry>, states: seq<Machine>, config: Config, events: seq<Event>)
    requires IsTrace(states, log, config) && After(log, states, config, events).Some?
    ensures NodeInv(log, states, After(log, states, config, events).value)
  {
    if events != [] {
      var rest := events[..|events| - 1];
      RunsKeepInv(log, states, config, rest);
      StepKeepsInv(log, states, config, After(log, states, config, rest).value, events[|events| - 1]);
    }
  }

  // ---- The traces that logs have

  lemma {:induction false} StepKeepsConfig(m: Machine, e: Entry, config: Config)
    requires ConfigMatches(m, config) && ApplyEntry(m, e).Some?
    ensures ConfigMatches(ApplyEntry(m, e).value.0, config)
  {
  }

  ghost function Trace(log: seq<Entry>, config: Config): (states: seq<Machine>)
    requires Replay(Start(config.maxEntries, config.maxBytes), log).Some?
    ensures IsTrace(states, log, config)
    ensures states[|log|] == Replay(Start(config.maxEntries, config.maxBytes), log).value
  {
    if log == [] then [Start(config.maxEntries, config.maxBytes)]
    else
      var states := Trace(log[..|log| - 1], config);
      var m := states[|log| - 1];
      var m' := ApplyEntry(m, log[|log| - 1]).value.0;
      StepKeepsConfig(m, log[|log| - 1], config);
      assert forall i :: 0 <= i < |log| - 1 ==> Steps(states[i], log[..|log| - 1][i], states[i + 1]);
      states + [m']
  }

  ghost function Folded(log: seq<Entry>, config: Config, end: nat): Machine
    requires Replay(Start(config.maxEntries, config.maxBytes), log).Some? && end <= |log|
  {
    Trace(log, config)[end]
  }

  lemma {:induction false} FoldedIsReplay(log: seq<Entry>, config: Config, end: nat)
    requires Replay(Start(config.maxEntries, config.maxBytes), log).Some? && end <= |log|
    ensures Replay(Start(config.maxEntries, config.maxBytes), log[..end]) == Some(Folded(log, config, end))
  {
    if end == |log| {
      assert log[..end] == log;
    } else {
      var rest := log[..|log| - 1];
      FoldedIsReplay(rest, config, end);
      assert rest[..end] == log[..end];
    }
  }

  lemma {:induction false} PrefixIsGuarded(s: Machine, log: seq<Entry>, end: nat)
    requires GuardedRun(s, log) && end <= |log|
    ensures GuardedRun(s, log[..end])
  {
    if end == |log| {
      assert log[..end] == log;
    } else {
      PrefixIsGuarded(s, log[..|log| - 1], end);
      assert log[..|log| - 1][..end] == log[..end];
    }
  }

  /**
    After every interleaving a restart finds no gap and no mismatch, and rebuilds exactly the fold of all durably
    applied entries, snapshot generation aside; it refuses exactly when that fold lies in the genesis window.
   */
  lemma {:induction false} RestartRebuildsFold(log: seq<Entry>, config: Config, events: seq<Event>)
    requires Replay(Start(config.maxEntries, config.maxBytes), log).Some? && GuardedRun(Start(config.maxEntries, config.maxBytes), log)
    requires After(log, Trace(log, config), config, events).Some?
    ensures var n := After(log, Trace(log, config), config, events).value;
            && n.durable <= |log|
            && var fold := Replay(Start(config.maxEntries, config.maxBytes), log[..n.durable]);
               && fold.Some?
               && Load(n.disk, config) ==
                  if GenesisWindow(fold.value.decisions.cluster, fold.value.membership) then Err(InvalidMembership)
                  else Ok(fold.value.(generation := SnapshotGeneration(n.disk)))
  {
    var states := Trace(log, config);
    var n := After(log, states, config, events).value;
    RunsKeepInv(log, states, config, events);
    LoadRebuilds(log, states, config, n.disk, n.durable);
    FoldedIsReplay(log, config, n.durable);
    PrefixIsGuarded(Start(config.maxEntries, config.maxBytes), log, n.durable);
    RunIsValid(config.maxEntries, config.maxBytes, log[..n.durable]);
  }

  /** Whatever happens next, an entry that was once durably applied stays so. */
  lemma {:induction false} DurableForever(log: seq<Entry>, config: Config, events: seq<Event>, more: seq<Event>)
    requires Replay(Start(config.maxEntries, config.maxBytes), log).Some?
    requires After(log, Trace(log, config), config, events + more).Some?
    ensures After(log, Trace(log, config), config, events).Some?
    ensures After(log, Trace(log, config), config, events).value.durable <=
            After(log, Trace(log, config), config, events + more).value.durable
    decreases |more|
  {
    var states := Trace(log, config);
    if more == [] {
      assert events + more == events;
    } else {
      var rest := more[..|more| - 1];
      assert (events + more)[..|events + more| - 1] == events + rest;
      DurableForever(log, config, events, rest);
      RunsKeepInv(log, states, config, events + rest);
      StepKeepsInv(log, states, config, After(log, states, config, events + rest).value, more[|more| - 1]);
    }
  }
}
