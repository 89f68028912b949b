/** Applied journal and snapshot: what survives a crash, and what a restart rebuilds. */
module Durability {
  import opened Prelude
  import opened LogIds
  import opened DecisionMachine
  import opened RaftMembership
  import opened RaftMachine

  datatype Config = Config(maxEntries: nat, maxBytes: nat)

  /** A snapshot body with the metadata written beside it. */
  datatype Snapshot = Snapshot(lastLog: Option<LogId>, membership: Membership, membershipAt: Option<LogId>, state: Machine)

  /** What is on disk; each write below replaces it in one atomic batch. */
  datatype Disk = Disk(snapshot: Option<Snapshot>, journal: map<nat, Entry>)

  datatype LoadError = MetadataMismatch | ConfigMismatch | JournalGap | InvalidMembership

  function SnapshotOf(m: Machine): Snapshot {
    Snapshot(m.lastApplied, m.membership, m.membershipAt, m)
  }

  predicate MetaMatches(s: Snapshot) {
    s.state.lastApplied == s.lastLog && s.state.membership == s.membership && s.state.membershipAt == s.membershipAt
  }

  predicate ConfigMatches(m: Machine, config: Config) {
    m.decisions.ledger.maxEntries == config.maxEntries && m.decisions.ledger.maxBytes == config.maxBytes
  }

  // ---- Writes

  function Appended(journal: map<nat, Entry>, entries: seq<Entry>): map<nat, Entry> {
    if entries == [] then journal
    else Appended(journal, entries[..|entries| - 1])[entries[|entries| - 1].at.index := entries[|entries| - 1]]
  }

  /** A built snapshot covers a prefix of the journal, an installed one all of it. */
  function Saved(disk: Disk, s: Snapshot, clearAll: bool): Disk {
    Disk(Some(s), map i | i in disk.journal && !clearAll && Next(s.lastLog) <= i :: disk.journal[i])
  }

  // ---- Restart

  ghost function LeastKey(journal: map<nat, Entry>): (k: nat)
    requires journal != map[]
    ensures k in journal && forall i :: i in journal ==> k <= i
  {
    LeastKeyExists(journal);
    var k :| k in journal && forall i :: i in journal ==> k <= i;
    k
  }

  lemma {:induction false} LeastKeyExists(journal: map<nat, Entry>)
    requires journal != map[]
    ensures exists k :: k in journal && forall i :: i in journal ==> k <= i
  {
    var k :| k in journal;
    LeastKeyBelow(journal, k);
  }

  lemma {:induction false} LeastKeyBelow(journal: map<nat, Entry>, bound: nat)
    requires bound in journal
    ensures exists k :: k in journal && forall i :: i in journal ==> k <= i
    decreases bound
  {
    if lower :| lower in journal && lower < bound {
      LeastKeyBelow(journal, lower);
    } else {
      assert bound in journal && forall i :: i in journal ==> bound <= i;
    }
  }

  /** The journal in key order. */
  ghost function Scan(journal: map<nat, Entry>): seq<Entry>
    decreases |journal|
  {
    if journal == map[] then []
    else
      var k := LeastKey(journal);
      assert (journal - {k}).Keys == journal.Keys - {k} && |(journal - {k}).Keys| < |journal.Keys|;
      [journal[k]] + Scan(journal - {k})
  }

  predicate Covered(m: Machine, e: Entry) {
    m.lastApplied.Some? && e.at.index <= m.lastApplied.value.index
  }

  /** Apply what the state does not cover yet; a gap stops the load. */
  ghost function Resume(m: Machine, entries: seq<Entry>): Option<Machine>
    decreases |entries|
  {
    if entries == [] then Some(m)
    else if Covered(m, entries[0]) then Resume(m, entries[1..])
    else if ApplyEntry(m, entries[0]).None? then None
    else Resume(ApplyEntry(m, entries[0]).value.0, entries[1..])
  }

  function SnapshotRefusal(snapshot: Option<Snapshot>, config: Config): Option<LoadError> {
    if snapshot.None? then None
    else if !MetaMatches(snapshot.value) then Some(MetadataMismatch)
    else if !ConfigMatches(snapshot.value.state, config) then Some(ConfigMismatch)
    else None
  }

  function Base(snapshot: Option<Snapshot>, config: Config): Machine {
    if snapshot.None? then Start(config.maxEntries, config.maxBytes) else snapshot.value.state
  }

  ghost function Load(disk: Disk, config: Config): Result<Machine, LoadError> {
    if SnapshotRefusal(disk.snapshot, config).Some? then Err(SnapshotRefusal(disk.snapshot, config).value)
    else
      var m := Resume(Base(disk.snapshot, config), Scan(disk.journal));
      if m.None? then Err(JournalGap)
      else if !MembershipValid(m.value.decisions.cluster, m.value.membership) then Err(InvalidMembership)
      else Ok(m.value)
  }

  class DurableStore {
    var snapshot: Option<Snapshot>
    var journal: map<nat, Entry>

    ghost function View(): Disk
      reads this
    {
      Disk(snapshot, journal)
    }

    constructor ()
      ensures View() == Disk(None, map[])
    {
      snapshot, journal := None, map[];
    }

    method AppendApplied(entries: seq<Entry>)
      modifies this`journal
      ensures journal == Appended(old(journal), entries)
    {
      if entries == [] {
        return;
      }
      var batch := journal;
      for i := 0 to |entries|
        invariant batch == Appended(journal, entries[..i])
      {
        batch := batch[entries[i].at.index := entries[i]];
        assert entries[..i + 1][..i] == entries[..i];
      }
      assert entries[..|entries|] == entries;
      journal := batch;
    }

    method ScanApplied() returns (entries: seq<Entry>)
      ensures entries == Scan(journal)
    {
      entries := [];
      var rest := journal;
      while rest != map[]
        invariant rest.Keys <= journal.Keys && entries + Scan(rest) == Scan(journal)
        decreases |rest.Keys|
      {
        LeastKeyExists(rest);
        var k :| k in rest && forall i :: i in rest ==> k <= i;
        assert k == LeastKey(rest);
        entries := entries + [rest[k]];
        rest := rest - {k};
      }
    }

    method SaveSnapshot(s: Snapshot, clearAll: bool)
      modifies this
      ensures View() == Saved(old(View()), s, clearAll)
      ensures forall i :: i in journal <==> i in old(journal) && !clearAll && Next(s.lastLog) <= i
      ensures forall i :: i in journal ==> journal[i] == old(journal)[i]
    {
      var kept := map i | i in journal && !clearAll && Next(s.lastLog) <= i :: journal[i];
      snapshot, journal := Some(s), kept;
    }

    /** `state` is the decoded snapshot body, or a new machine if there is no snapshot. */
    method LoadMachine(state: MachineState, config: Config) returns (e: Option<LoadError>)
      requires state.Valid() && state.View() == Base(snapshot, config)
      modifies state, state.decisions, state.decisions.ledger, state.decisions.cluster, state.decisions.cluster.usedNodeIds.words
      ensures state.Valid()
      ensures e.Some? <==> Load(old(View()), config).Err?
      ensures e.Some? ==> e.value == Load(old(View()), config).error
      ensures e.None? ==> state.View() == Load(old(View()), config).value
    {
      if snapshot.Some? {
        if snapshot.value.lastLog != state.lastApplied || snapshot.value.membership != state.membership
           || snapshot.value.membershipAt != state.membershipAt {
          return Some(MetadataMismatch);
        }
        var ledger := state.decisions.ledger;
        if ledger.maxCommitEntries != config.maxEntries || ledger.maxCommitBytes != config.maxBytes {
          return Some(ConfigMismatch);
        }
      }
      var entries := ScanApplied();
      ghost var base := state.View();
      var i := 0;
      while i < |entries|
        invariant state.Valid() && i <= |entries|
        invariant Resume(base, entries) == Resume(state.View(), entries[i..])
      {
        assert entries[i..][1..] == entries[i + 1..];
        if state.lastApplied.None? || state.lastApplied.value.index < entries[i].at.index {
          var applied := state.ApplyNext(entries[i]);
          if applied.None? {
            return Some(JournalGap);
          }
        }
        i := i + 1;
      }
      var ok := state.ValidateClusterMembership();
      return if ok then None else Some(InvalidMembership);
    }
  }

  // ---- Applying committed entries

  /** A batch continues the applied log without a hole. */
  predicate Consecutive(last: Option<LogId>, entries: seq<Entry>) {
    forall i :: 0 <= i < |entries| ==> entries[i].at.index == Next(last) + i
  }

  method ValidateAppliedSequence(last: Option<LogId>, entries: seq<Entry>) returns (ok: bool)
    ensures ok <==> Consecutive(last, entries)
  {
    var expected := Next(last);
    for i := 0 to |entries|
      invariant expected == Next(last) + i
      invariant forall j :: 0 <= j < i ==> entries[j].at.index == Next(last) + j
    {
      if entries[i].at.index != expected {
        return false;
      }
      expected := expected + 1;
    }
    return true;
  }

  lemma {:induction false} ReplayNext(m: Machine, entries: seq<Entry>, k: nat)
    requires k < |entries|
    ensures Replay(m, entries[..k + 1]) ==
            if Replay(m, entries[..k]).None? || ApplyEntry(Replay(m, entries[..k]).value, entries[k]).None? then None
            else Some(ApplyEntry(Replay(m, entries[..k]).value, entries[k]).value.0)
  {
    assert entries[..k + 1][..k] == entries[..k];
  }

  /** The entry after `k` applied ones is the next one, so it is never refused. */
  lemma NextIsExpected(m: Machine, m': Machine, entries: seq<Entry>, k: nat)
    requires Consecutive(m.lastApplied, entries) && k < |entries| && Next(m'.lastApplied) == Next(m.lastApplied) + k
    ensures ApplyEntry(m', entries[k]).Some?
    ensures Next(ApplyEntry(m', entries[k]).value.0.lastApplied) == Next(m.lastApplied) + k + 1
  {
  }

  /** Committed entries go to the journal first and then, one by one, into memory. */
  class StateMachineStorage {
    const store: DurableStore
    const machine: MachineState

    constructor (store: DurableStore, machine: MachineState)
      ensures this.store == store && this.machine == machine
    {
      this.store, this.machine := store, machine;
    }

    /** A batch is refused whole if it has a hole; otherwise it is journaled and every entry of it applies. */
    method ApplyBatch(entries: seq<Entry>) returns (r: Option<seq<Response>>)
      requires machine.Valid()
      modifies store, machine, machine.decisions, machine.decisions.ledger, machine.decisions.cluster,
               machine.decisions.cluster.usedNodeIds.words
      ensures machine.Valid()
      ensures r.Some? <==> Consecutive(old(machine.lastApplied), entries)
      ensures r.None? ==> machine.View() == old(machine.View()) && store.View() == old(store.View())
      ensures r.Some? ==> Replay(old(machine.View()), entries) == Some(machine.View()) && |r.value| == |entries|
      ensures r.Some? ==> store.View() == old(store.View()).(journal := Appended(old(store.journal), entries))
    {
      ghost var before := machine.View();
      var consecutive := ValidateAppliedSequence(machine.lastApplied, entries);
      if !consecutive {
        return None;
      }
      store.AppendApplied(entries);
      var responses: seq<Response> := [];
      assert machine.View() == before;
      for k := 0 to |entries|
        invariant machine.Valid() && |responses| == k
        invariant Replay(before, entries[..k]) == Some(machine.View())
        invariant Next(machine.lastApplied) == Next(before.lastApplied) + k
        invariant store.View() == old(store.View()).(journal := Appended(old(store.journal), entries))
      {
        ReplayNext(before, entries, k);
        NextIsExpected(before, machine.View(), entries, k);
        var response := machine.ApplyNext(entries[k]);
        if response.None? {
          return None;
        }
        responses := responses + [response.value];
      }
      assert entries[..|entries|] == entries;
      return Some(responses);
    }
  }
}
