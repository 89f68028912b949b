/** The durable Raft log: consecutive entries between a purge point and an end. */
module RaftLog {
  import opened Prelude
  import opened LogIds
  import opened RaftMachine

  datatype Log = Log(entries: map<nat, Entry>, last: Option<LogId>, purged: Option<LogId>)

  datatype LogError = NonConsecutive | LogHole | TruncatePurged | PurgeRegression

  /** Where the next entry belongs. */
  function End(l: Log): nat {
    if l.last.Some? then l.last.value.index + 1 else Next(l.purged)
  }

  /** No hole between the purge point and the end, and the recorded last identity is that of the last entry. */
  ghost predicate Contiguous(l: Log) {
    && (forall i :: i in l.entries <==> Next(l.purged) <= i < End(l))
    && (forall i :: i in l.entries ==> l.entries[i].at.index == i)
    && (l.last.Some? ==> l.last.value.index in l.entries && l.entries[l.last.value.index].at == l.last.value)
  }

  predicate Ascending(batch: seq<Entry>) {
    forall i :: 0 < i < |batch| ==> batch[i].at.index == batch[i - 1].at.index + 1
  }

  function Put(entries: map<nat, Entry>, batch: seq<Entry>): map<nat, Entry> {
    if batch == [] then entries
    else Put(entries, batch[..|batch| - 1])[batch[|batch| - 1].at.index := batch[|batch| - 1]]
  }

  function AppendRefusal(l: Log, batch: seq<Entry>): Option<LogError> {
    if batch == [] then None
    else if !Ascending(batch) then Some(NonConsecutive)
    else if batch[0].at.index != End(l) then Some(LogHole)
    else None
  }

  function AppendStep(l: Log, batch: seq<Entry>): Log {
    if batch == [] || AppendRefusal(l, batch).Some? then l
    else l.(entries := Put(l.entries, batch), last := Some(batch[|batch| - 1].at))
  }

  function TruncateRefusal(l: Log, from: nat): Option<LogError> {
    if l.purged.Some? && from <= l.purged.value.index then Some(TruncatePurged) else None
  }

  /** Everything up to the recorded end goes; the entry before the cut becomes the last one. */
  function TruncateStep(l: Log, from: nat): Log {
    if TruncateRefusal(l, from).Some? then l
    else
      Log(map i | i in l.entries && !(l.last.Some? && from <= i <= l.last.value.index) :: l.entries[i],
          if from > 0 && from - 1 in l.entries then Some(l.entries[from - 1].at) else None,
          l.purged)
  }

  function PurgeRefusal(l: Log, through: LogId): Option<LogError> {
    if l.purged.Some? && through.index < l.purged.value.index then Some(PurgeRegression) else None
  }

  function PurgeStep(l: Log, through: LogId): Log {
    if PurgeRefusal(l, through).Some? then l
    else
      Log(map i | i in l.entries && through.index < i :: l.entries[i],
          if l.last.Some? && l.last.value.index <= through.index then None else l.last,
          Some(through))
  }

  class LogStore {
    var entries: map<nat, Entry>
    var last: Option<LogId>
    var purged: Option<LogId>

    ghost function View(): Log
      reads this
    {
      Log(entries, last, purged)
    }

    constructor ()
      ensures View() == Log(map[], None, None)
    {
      entries, last, purged := map[], None, None;
    }

    method AppendLogs(batch: seq<Entry>) returns (e: Option<LogError>)
      modifies this
      ensures e == AppendRefusal(old(View()), batch) && View() == AppendStep(old(View()), batch)
    {
      if batch == [] {
        return None;
      }
      for i := 1 to |batch|
        invariant forall j :: 0 < j < i ==> batch[j].at.index == batch[j - 1].at.index + 1
      {
        if batch[i].at.index != batch[i - 1].at.index + 1 {
          return Some(NonConsecutive);
        }
      }
      var expected := if last.Some? then Next(last) else Next(purged);
      if batch[0].at.index != expected {
        return Some(LogHole);
      }
      var written := entries;
      for i := 0 to |batch|
        invariant written == Put(entries, batch[..i])
      {
        written := written[batch[i].at.index := batch[i]];
        assert batch[..i + 1][..i] == batch[..i];
      }
      assert batch[..|batch|] == batch;
      entries, last := written, Some(batch[|batch| - 1].at);
      return None;
    }

    method TruncateLogs(from: nat) returns (e: Option<LogError>)
      modifies this
      ensures e == TruncateRefusal(old(View()), from) && View() == TruncateStep(old(View()), from)
      ensures e.None? ==> forall i :: i in entries <==>
                            i in old(entries) && (i < from || old(last).None? || old(last).value.index < i)
      ensures forall i :: i in entries ==> entries[i] == old(entries)[i]
    {
      if purged.Some? && from <= purged.value.index {
        return Some(TruncatePurged);
      }
      var kept := map i | i in entries && !(last.Some? && from <= i <= last.value.index) :: entries[i];
      var previous := if from > 0 && from - 1 in entries then Some(entries[from - 1].at) else None;
      entries, last := kept, previous;
      return None;
    }

    method PurgeLogs(through: LogId) returns (e: Option<LogError>)
      modifies this
      ensures e == PurgeRefusal(old(View()), through) && View() == PurgeStep(old(View()), through)
      ensures e.None? ==> forall i :: i in entries <==> i in old(entries) && through.index < i
      ensures forall i :: i in entries ==> entries[i] == old(entries)[i]
    {
      if purged.Some? && through.index < purged.value.index {
        return Some(PurgeRegression);
      }
      entries := map i | i in entries && through.index < i :: entries[i];
      if last.Some? && last.value.index <= through.index {
        last := None;
      }
      purged := Some(through);
      return None;
    }
  }

  lemma {:induction false} PutExtends(entries: map<nat, Entry>, batch: seq<Entry>, start: nat, from: nat)
    requires start <= from && (forall i :: i in entries <==> start <= i < from)
    requires forall i :: i in entries ==> entries[i].at.index == i
    requires Ascending(batch) && (batch != [] ==> batch[0].at.index == from)
    ensures var grown := Put(entries, batch);
            && (forall i :: i in grown <==> start <= i < from + |batch|)
            && (forall i :: i in grown ==> grown[i].at.index == i)
            && (batch != [] ==> batch[|batch| - 1].at.index == from + |batch| - 1 && from + |batch| - 1 in grown
                                && grown[from + |batch| - 1] == batch[|batch| - 1])
  {
    if batch != [] {
      var rest := batch[..|batch| - 1];
      PutExtends(entries, rest, start, from);
      var last := batch[|batch| - 1];
      assert last.at.index == from + |rest| by {
        assert rest != [] ==> last.at.index == batch[|batch| - 2].at.index + 1 && rest[|rest| - 1] == batch[|batch| - 2];
      }
      assert Put(entries, batch) == Put(entries, rest)[last.at.index := last];
    }
  }

  /** Appending never leaves a hole, whatever batch is offered. */
  lemma AppendKeepsContiguous(l: Log, batch: seq<Entry>)
    requires Contiguous(l)
    ensures Contiguous(AppendStep(l, batch))
  {
    if batch != [] && AppendRefusal(l, batch).None? {
      PutExtends(l.entries, batch, Next(l.purged), End(l));
      var grown := Put(l.entries, batch);
      assert forall i :: i in grown <==> Next(l.purged) <= i < End(l) + |batch|;
      assert AppendStep(l, batch) == Log(grown, Some(batch[|batch| - 1].at), l.purged);
    }
  }

  lemma PurgeKeepsContiguous(l: Log, through: LogId)
    requires Contiguous(l)
    ensures Contiguous(PurgeStep(l, through))
  {
  }

  /** A cut keeps the log contiguous exactly when it is refused, lies within the end, or finds the log empty. */
  lemma TruncateKeepsContiguousIff(l: Log, from: nat)
    requires Contiguous(l)
    ensures Contiguous(TruncateStep(l, from)) <==> TruncateRefusal(l, from).Some? || from <= End(l) || l.last.None?
  {
    if TruncateRefusal(l, from).None? && from > End(l) && l.last.Some? {
      assert l.last.value.index in TruncateStep(l, from).entries;
    }
  }

  /** Cutting beyond the end forgets the last identity of a log that still has entries. */
  lemma TruncateBeyondEnd()
    ensures var e := Entry(LogId(1, 0), Blank);
            var l := Log(map[0 := e], Some(LogId(1, 0)), None);
            Contiguous(l) && !Contiguous(TruncateStep(l, 2))
  {
    var l := Log(map[0 := Entry(LogId(1, 0), Blank)], Some(LogId(1, 0)), None);
    assert 0 in TruncateStep(l, 2).entries;
  }

  // ---- Every run of the store

  datatype LogAction = Append(batch: seq<Entry>) | Truncate(from: nat) | Purge(through: LogId)

  /** Cuts lie within the end of the log, as the consensus library asks for them; appends and purges are arbitrary. */
  predicate Asked(l: Log, a: LogAction) {
    a.Truncate? ==> a.from <= End(l)
  }

  function Step(l: Log, a: LogAction): Log {
    match a
    case Append(batch) => AppendStep(l, batch)
    case Truncate(from) => TruncateStep(l, from)
    case Purge(through) => PurgeStep(l, through)
  }

  /** The log after a run from an empty store, or None when some cut of it lay beyond the end. */
  function After(actions: seq<LogAction>): Option<Log> {
    if actions == [] then Some(Log(map[], None, None))
    else
      match After(actions[..|actions| - 1])
      case None => None
      case Some(l) =>
        var a := actions[|actions| - 1];
        if Asked(l, a) then Some(Step(l, a)) else None
  }

  /** No run of appends, cuts and purges, refused or not, ever leaves a hole. */
  lemma {:induction false} RunsStayContiguous(actions: seq<LogAction>)
    requires After(actions).Some?
    ensures Contiguous(After(actions).value)
  {
    if actions != [] {
      var before := actions[..|actions| - 1];
      RunsStayContiguous(before);
      var l := After(before).value;
      match actions[|actions| - 1]
      case Append(batch) => AppendKeepsContiguous(l, batch);
      case Truncate(from) => TruncateKeepsContiguousIff(l, from);
      case Purge(through) => PurgeKeepsContiguous(l, through);
    }
  }
}
