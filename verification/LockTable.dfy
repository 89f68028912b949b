/** Object addresses and their canonical order, which is the order of locking. */
module ObjectPaths {
  import opened Text

  datatype ObjectPath = ObjectPath(tenant: string, bucket: string, path: string)

  predicate PathLess(a: ObjectPath, b: ObjectPath) {
    || StringLess(a.tenant, b.tenant)
    || (a.tenant == b.tenant && StringLess(a.bucket, b.bucket))
    || (a.tenant == b.tenant && a.bucket == b.bucket && StringLess(a.path, b.path))
  }

  lemma PathIrreflexive(a: ObjectPath)
    ensures !PathLess(a, a)
  {
    LessIrreflexive(a.tenant);
    LessIrreflexive(a.bucket);
    LessIrreflexive(a.path);
  }

  lemma PathTransitive(a: ObjectPath, b: ObjectPath, c: ObjectPath)
    requires PathLess(a, b) && PathLess(b, c)
    ensures PathLess(a, c)
  {
    if StringLess(a.tenant, b.tenant) && StringLess(b.tenant, c.tenant) {
      LessTransitive(a.tenant, b.tenant, c.tenant);
    } else if a.tenant == b.tenant == c.tenant {
      if StringLess(a.bucket, b.bucket) && StringLess(b.bucket, c.bucket) {
        LessTransitive(a.bucket, b.bucket, c.bucket);
      } else if a.bucket == b.bucket == c.bucket {
        LessIrreflexive(a.tenant);
        LessIrreflexive(a.bucket);
        LessTransitive(a.path, b.path, c.path);
      } else {
        LessIrreflexive(a.tenant);
      }
    }
  }

  lemma PathTotal(a: ObjectPath, b: ObjectPath)
    requires a != b
    ensures PathLess(a, b) || PathLess(b, a)
  {
    if a.tenant != b.tenant {
      LessTotal(a.tenant, b.tenant);
    } else if a.bucket != b.bucket {
      LessTotal(a.bucket, b.bucket);
    } else {
      LessTotal(a.path, b.path);
    }
  }

  predicate Ascending(s: seq<ObjectPath>) {
    forall i, j :: 0 <= i < j < |s| ==> PathLess(s[i], s[j])
  }

  /** Insertion into an ordered set kept as its ascending sequence. */
  function InsertPath(s: seq<ObjectPath>, p: ObjectPath): (r: seq<ObjectPath>)
    requires Ascending(s)
    ensures Ascending(r) && forall q :: q in r <==> q in s || q == p
  {
    if s == [] then [p]
    else if p == s[0] then s
    else if PathLess(p, s[0]) then
      FirstIsLeast(s, p);
      [p] + s
    else
      PathTotal(p, s[0]);
      var rest := InsertPath(s[1..], p);
      assert forall q :: q in s <==> q == s[0] || q in s[1..];
      assert forall i :: 0 <= i < |rest| ==> rest[i] in rest && PathLess(s[0], rest[i]);
      [s[0]] + rest
  }

  lemma FirstIsLeast(s: seq<ObjectPath>, p: ObjectPath)
    requires Ascending(s) && s != [] && PathLess(p, s[0])
    ensures Ascending([p] + s)
  {
    forall i | 0 <= i < |s|
      ensures PathLess(p, s[i])
    {
      if i > 0 {
        PathTransitive(p, s[0], s[i]);
      }
    }
  }

  /** The paths of a collection, without duplicates, in canonical order. */
  function Canonical(paths: seq<ObjectPath>): (r: seq<ObjectPath>)
    ensures Ascending(r) && forall p :: p in r <==> p in paths
  {
    if paths == [] then []
    else
      assert forall p :: p in paths <==> p == paths[|paths| - 1] || p in paths[..|paths| - 1];
      InsertPath(Canonical(paths[..|paths| - 1]), paths[|paths| - 1])
  }

  lemma AscendingDistinct(s: seq<ObjectPath>, i: nat, j: nat)
    requires Ascending(s) && i < j < |s|
    ensures s[i] != s[j]
  {
    PathIrreflexive(s[i]);
  }
}

/**
  The executor's local lock table and its tasks. The table holds weak
  references: an entry is alive while some task still refers to its mutex.
 */
module LockTable {
  import opened Prelude
  import opened ObjectPaths

  type MutexId = nat
  type Table = map<ObjectPath, MutexId>

  /**
    One `acquire` call: the paths it still refers to in lock order, their mutexes, how many of them it holds, and
    whether its guard, or the call itself, is being dropped.
   */
  datatype TaskState = Task(ordered: seq<ObjectPath>, mutexes: seq<MutexId>, held: nat, dropping: bool)

  /** A task that is being dropped refers only to what it still holds. */
  predicate Shaped(t: TaskState) {
    |t.mutexes| == |t.ordered| && t.held <= |t.mutexes| && (t.dropping ==> t.held == |t.mutexes|)
  }

  type Task = t: TaskState | Shaped(t) witness Task([], [], 0, false)

  datatype Locks = Locks(table: Table, next: MutexId, tasks: map<nat, Task>)

  datatype Action = Begin(task: nat, paths: seq<ObjectPath>) | Lock(task: nat) | Drop(task: nat) | Release(task: nat)

  // ---- The critical section on the table

  function Retain(table: Table, live: set<MutexId>): Table {
    map p | p in table && table[p] in live :: table[p]
  }

  /** The table with a mutex for every path, new mutexes numbered from `next`. */
  function Fill(table: Table, next: MutexId, ordered: seq<ObjectPath>): (Table, MutexId) {
    if ordered == [] then (table, next)
    else
      var (filled, unused) := Fill(table, next, ordered[..|ordered| - 1]);
      var last := ordered[|ordered| - 1];
      if last in filled then (filled, unused) else (filled[last := unused], unused + 1)
  }

  lemma {:induction false} FillExtends(table: Table, next: MutexId, ordered: seq<ObjectPath>)
    ensures var (filled, unused) := Fill(table, next, ordered);
            && next <= unused
            && (forall p :: p in ordered ==> p in filled)
            && (forall p :: p in table ==> p in filled && filled[p] == table[p])
            && (forall p :: p in filled && p !in table ==> next <= filled[p] < unused)
            && (forall p, q :: p in filled && q in filled && p !in table && q !in table && filled[p] == filled[q] ==> p == q)
    decreases |ordered|
  {
    if ordered != [] {
      FillExtends(table, next, ordered[..|ordered| - 1]);
    }
  }

  lemma FillNext(table: Table, next: MutexId, ordered: seq<ObjectPath>, k: nat)
    requires k < |ordered|
    ensures var (filled, unused) := Fill(table, next, ordered[..k]);
            Fill(table, next, ordered[..k + 1]) ==
            if ordered[k] in filled then (filled, unused) else (filled[ordered[k] := unused], unused + 1)
  {
    assert ordered[..k + 1][..k] == ordered[..k];
  }

  /** The mutexes that some task still refers to. */
  function Live(tasks: map<nat, Task>): set<MutexId> {
    set t, i | t in tasks && 0 <= i < |tasks[t].mutexes| :: tasks[t].mutexes[i]
  }

  class LocalLockManager {
    var table: Table
    var next: MutexId

    constructor ()
      ensures table == map[] && next == 0
    {
      table, next := map[], 0;
    }

    /** Prunes dead entries, then finds or creates one mutex for each path. */
    method Prepare(paths: seq<ObjectPath>, live: set<MutexId>) returns (ordered: seq<ObjectPath>, mutexes: seq<MutexId>)
      modifies this
      ensures ordered == Canonical(paths) && |mutexes| == |ordered|
      ensures (table, next) == Fill(Retain(old(table), live), old(next), ordered)
      ensures forall i :: 0 <= i < |ordered| ==> ordered[i] in table && mutexes[i] == table[ordered[i]]
    {
      ordered := Canonical(paths);
      table := Retain(table, live);
      ghost var kept, first := table, next;
      mutexes := [];
      for k := 0 to |ordered|
        invariant |mutexes| == k && (table, next) == Fill(kept, first, ordered[..k])
        invariant forall i :: 0 <= i < k ==> ordered[i] in table && mutexes[i] == table[ordered[i]]
      {
        FillNext(kept, first, ordered, k);
        if ordered[k] in table {
          mutexes := mutexes + [table[ordered[k]]];
        } else {
          table := table[ordered[k] := next];
          mutexes := mutexes + [next];
          next := next + 1;
        }
      }
      assert ordered[..|ordered|] == ordered;
    }
  }

  // ---- Interleaved tasks

  predicate Complete(t: Task) {
    t.held >= |t.mutexes|
  }

  predicate Owns(t: Task, m: MutexId) {
    exists i :: 0 <= i < t.held && i < |t.mutexes| && t.mutexes[i] == m
  }

  predicate CanLock(s: Locks, task: nat) {
    && task in s.tasks && !Complete(s.tasks[task])
    && forall u :: u in s.tasks ==> !Owns(s.tasks[u], s.tasks[task].mutexes[s.tasks[task].held])
  }

  predicate Enabled(s: Locks, a: Action) {
    match a
    case Begin(task, _) => task !in s.tasks
    case Lock(task) => CanLock(s, task)
    case Drop(task) => task in s.tasks && !s.tasks[task].dropping
    case Release(task) => task in s.tasks && s.tasks[task].dropping
  }

  /**
    A task may be dropped at any point: a finished guard, or an acquisition cancelled half way. The drop gives up the
    mutexes it does not hold at once and then releases the others one by one, first to last, while other tasks run.
   */
  function Next(s: Locks, a: Action): Locks
    requires Enabled(s, a)
  {
    match a
    case Begin(task, paths) =>
      var ordered := Canonical(paths);
      var (table, next) := Fill(Retain(s.table, Live(s.tasks)), s.next, ordered);
      FillExtends(Retain(s.table, Live(s.tasks)), s.next, ordered);
      var mutexes := seq(|ordered|, i requires 0 <= i < |ordered| => table[ordered[i]]);
      Locks(table, next, s.tasks[task := Task(ordered, mutexes, 0, false)])
    case Lock(task) => s.(tasks := s.tasks[task := s.tasks[task].(held := s.tasks[task].held + 1)])
    case Drop(task) =>
      var t := s.tasks[task];
      s.(tasks := s.tasks[task := Task(t.ordered[..t.held], t.mutexes[..t.held], t.held, true)])
    case Release(task) =>
      var t := s.tasks[task];
      if |t.mutexes| <= 1 then s.(tasks := s.tasks - {task})
      else s.(tasks := s.tasks[task := Task(t.ordered[1..], t.mutexes[1..], t.held - 1, true)])
  }

  function After(actions: seq<Action>): Option<Locks> {
    if actions == [] then Some(Locks(map[], 0, map[]))
    else
      match After(actions[..|actions| - 1])
      case None => None
      case Some(s) =>
        var a := actions[|actions| - 1];
        if Enabled(s, a) then Some(Next(s, a)) else None
  }

  predicate TaskOk(table: Table, t: Task) {
    && Ascending(t.ordered)
    && forall i :: 0 <= i < |t.ordered| ==> t.ordered[i] in table && table[t.ordered[i]] == t.mutexes[i]
  }

  predicate TableOk(table: Table, next: MutexId) {
    && (forall p :: p in table ==> table[p] < next)
    && (forall p, q :: p in table && q in table && table[p] == table[q] ==> p == q)
  }

  ghost predicate Inv(s: Locks) {
    && TableOk(s.table, s.next)
    && (forall t :: t in s.tasks ==> TaskOk(s.table, s.tasks[t]))
    && (forall t, u, m :: t in s.tasks && u in s.tasks && t != u && Owns(s.tasks[t], m) ==> !Owns(s.tasks[u], m))
  }

  lemma BeginKeepsInv(s: Locks, task: nat, paths: seq<ObjectPath>)
    requires Inv(s) && task !in s.tasks
    ensures Inv(Next(s, Begin(task, paths)))
  {
    var kept := Retain(s.table, Live(s.tasks));
    var ordered := Canonical(paths);
    FillExtends(kept, s.next, ordered);
    var s' := Next(s, Begin(task, paths));
    assert forall i :: 0 <= i < |ordered| ==> ordered[i] in s'.table;
    forall t | t in s.tasks
      ensures TaskOk(s'.table, s.tasks[t])
    {
      LiveTaskStays(s, t, s'.table);
    }
    assert TaskOk(s'.table, s'.tasks[task]);
  }

  /** The mutexes of a running task are alive, so pruning and filling the table leave them in place. */
  lemma LiveTaskStays(s: Locks, t: nat, table: Table)
    requires t in s.tasks && TaskOk(s.table, s.tasks[t])
    requires forall p :: p in Retain(s.table, Live(s.tasks)) ==> p in table && table[p] == s.table[p]
    ensures TaskOk(table, s.tasks[t])
  {
    var ordered, mutexes := s.tasks[t].ordered, s.tasks[t].mutexes;
    forall i | 0 <= i < |ordered|
      ensures ordered[i] in table && table[ordered[i]] == mutexes[i]
    {
      assert mutexes[i] in Live(s.tasks);
      assert ordered[i] in Retain(s.table, Live(s.tasks));
    }
  }

  lemma LockKeepsInv(s: Locks, task: nat)
    requires Inv(s) && CanLock(s, task)
    ensures Inv(Next(s, Lock(task)))
  {
    var before, s' := s.tasks[task], Next(s, Lock(task));
    var locked := before.mutexes[before.held];
    assert TaskOk(s.table, before);
    forall m | Owns(s'.tasks[task], m)
      ensures Owns(before, m) || m == locked
    {
    }
    forall t, u, m | t in s'.tasks && u in s'.tasks && t != u && Owns(s'.tasks[t], m)
      ensures !Owns(s'.tasks[u], m)
    {
      assert t != task ==> s'.tasks[t] == s.tasks[t];
      assert u != task ==> s'.tasks[u] == s.tasks[u];
    }
  }

  lemma NextKeepsInv(s: Locks, a: Action)
    requires Inv(s) && Enabled(s, a)
    ensures Inv(Next(s, a))
  {
    match a
    case Begin(task, paths) => BeginKeepsInv(s, task, paths);
    case Lock(task) => LockKeepsInv(s, task);
    case Drop(task) => FewerKeepsInv(s, task, Next(s, a), 0);
    case Release(task) => FewerKeepsInv(s, task, Next(s, a), 1);
  }

  /** Giving up mutexes keeps what remains in order, in the table and exclusive. */
  lemma FewerKeepsInv(s: Locks, task: nat, s': Locks, skip: nat)
    requires Inv(s) && task in s.tasks && s'.table == s.table && s'.next == s.next
    requires s'.tasks.Keys <= s.tasks.Keys && forall t :: t in s'.tasks && t != task ==> s'.tasks[t] == s.tasks[t]
    requires task in s'.tasks ==> Fewer(s.tasks[task], s'.tasks[task], skip)
    ensures Inv(s')
  {
    assert TaskOk(s.table, s.tasks[task]);
    if task in s'.tasks {
      FewerIsOk(s.table, s.tasks[task], s'.tasks[task], skip);
    }
    forall t, m | t in s'.tasks && Owns(s'.tasks[t], m)
      ensures t in s.tasks && Owns(s.tasks[t], m)
    {
    }
  }

  /** A consecutive part of what a task referred to, of which it holds no more than it did. */
  predicate Fewer(t: Task, t': Task, skip: nat) {
    && skip + |t'.mutexes| <= |t.mutexes| && skip + t'.held <= t.held
    && t'.ordered == t.ordered[skip..skip + |t'.mutexes|] && t'.mutexes == t.mutexes[skip..skip + |t'.mutexes|]
  }

  lemma FewerIsOk(table: Table, t: Task, t': Task, skip: nat)
    requires TaskOk(table, t) && Fewer(t, t', skip)
    ensures TaskOk(table, t') && forall m :: Owns(t', m) ==> Owns(t, m)
  {
    assert forall i :: 0 <= i < |t'.mutexes| ==> t'.mutexes[i] == t.mutexes[skip + i] && t'.ordered[i] == t.ordered[skip + i];
  }

  lemma {:induction false} RunKeepsInv(actions: seq<Action>)
    requires After(actions).Some?
    ensures Inv(After(actions).value)
  {
    if actions != [] {
      RunKeepsInv(actions[..|actions| - 1]);
      NextKeepsInv(After(actions[..|actions| - 1]).value, actions[|actions| - 1]);
    }
  }

  // ---- Theorems

  /**
    In every run, with any cancellations and releases in progress: a path has one live mutex, the same
    for all tasks, a mutex stands for one path, and no two tasks hold a path.
   */
  lemma LocksExclude(actions: seq<Action>, t: nat, u: nat, i: nat, j: nat)
    requires After(actions).Some?
    requires var s := After(actions).value;
             t in s.tasks && u in s.tasks && i < |s.tasks[t].mutexes| && j < |s.tasks[u].mutexes|
    ensures var s := After(actions).value;
            var (left, right) := (s.tasks[t], s.tasks[u]);
            && |left.ordered| == |left.mutexes| && |right.ordered| == |right.mutexes|
            && (left.ordered[i] == right.ordered[j] <==> left.mutexes[i] == right.mutexes[j])
            && (t != u && i < left.held && j < right.held ==> left.ordered[i] != right.ordered[j])
            && (t == u && i != j ==> left.ordered[i] != left.ordered[j])
  {
    RunKeepsInv(actions);
    var s := After(actions).value;
    assert TaskOk(s.table, s.tasks[t]) && TaskOk(s.table, s.tasks[u]);
    if i < s.tasks[t].held {
      assert Owns(s.tasks[t], s.tasks[t].mutexes[i]);
    }
    if t == u && i < j {
      AscendingDistinct(s.tasks[t].ordered, i, j);
    } else if t == u && j < i {
      AscendingDistinct(s.tasks[t].ordered, j, i);
    }
  }

  predicate Waiting(s: Locks, t: nat) {
    t in s.tasks && !Complete(s.tasks[t])
  }

  function Wanted(s: Locks, t: nat): ObjectPath
    requires Waiting(s, t)
  {
    s.tasks[t].ordered[s.tasks[t].held]
  }

  /** The wait-for graph: `t` wants a mutex that `u` holds. */
  predicate WaitsFor(s: Locks, t: nat, u: nat) {
    Waiting(s, t) && u in s.tasks && Owns(s.tasks[u], s.tasks[t].mutexes[s.tasks[t].held])
  }

  /** Along the wait-for graph the wanted path strictly grows. */
  lemma WantedGrows(s: Locks, t: nat, u: nat)
    requires Inv(s) && WaitsFor(s, t, u) && Waiting(s, u)
    ensures |s.tasks[t].ordered| == |s.tasks[t].mutexes| && |s.tasks[u].ordered| == |s.tasks[u].mutexes|
    ensures PathLess(Wanted(s, t), Wanted(s, u))
  {
    var (left, right) := (s.tasks[t], s.tasks[u]);
    assert TaskOk(s.table, left) && TaskOk(s.table, right);
    var i :| 0 <= i < right.held && i < |right.mutexes| && right.mutexes[i] == left.mutexes[left.held];
    assert right.ordered[i] == left.ordered[left.held];
  }

  predicate Chain(s: Locks, chain: seq<nat>) {
    forall i :: 0 <= i < |chain| - 1 ==> WaitsFor(s, chain[i], chain[i + 1])
  }

  lemma {:induction false} ChainGrows(s: Locks, chain: seq<nat>)
    requires Inv(s) && |chain| >= 2 && Chain(s, chain) && Waiting(s, chain[|chain| - 1])
    ensures Waiting(s, chain[0])
    ensures |s.tasks[chain[0]].ordered| == |s.tasks[chain[0]].mutexes|
    ensures |s.tasks[chain[|chain| - 1]].ordered| == |s.tasks[chain[|chain| - 1]].mutexes|
    ensures PathLess(Wanted(s, chain[0]), Wanted(s, chain[|chain| - 1]))
    decreases |chain|
  {
    assert WaitsFor(s, chain[0], chain[1]);
    if |chain| == 2 {
      WantedGrows(s, chain[0], chain[1]);
    } else {
      assert WaitsFor(s, chain[1], chain[2]);
      forall i | 0 <= i < |chain[1..]| - 1
        ensures WaitsFor(s, chain[1..][i], chain[1..][i + 1])
      {
        assert WaitsFor(s, chain[i + 1], chain[i + 1 + 1]);
      }
      ChainGrows(s, chain[1..]);
      WantedGrows(s, chain[0], chain[1]);
      PathTransitive(Wanted(s, chain[0]), Wanted(s, chain[1]), Wanted(s, chain[|chain| - 1]));
    }
  }

  /** No task waits, directly or through others, for itself. */
  lemma NoDeadlock(actions: seq<Action>, chain: seq<nat>)
    requires After(actions).Some? && |chain| >= 2 && Chain(After(actions).value, chain)
    ensures chain[0] != chain[|chain| - 1]
  {
    RunKeepsInv(actions);
    var s := After(actions).value;
    if chain[0] == chain[|chain| - 1] {
      assert WaitsFor(s, chain[0], chain[1]);
      ChainGrows(s, chain);
      PathIrreflexive(Wanted(s, chain[0]));
    }
  }

  /** Among some tasks there is one whose wanted path no other exceeds. */
  lemma {:induction false} Foremost(wanted: map<nat, ObjectPath>, among: set<nat>) returns (t: nat)
    requires among != {} && among <= wanted.Keys
    ensures t in among && forall u :: u in among ==> !PathLess(wanted[t], wanted[u])
    decreases |among|
  {
    var first :| first in among;
    var rest := among - {first};
    PathIrreflexive(wanted[first]);
    t := first;
    assert forall u :: u in among ==> u == first || u in rest;
    if rest != {} {
      var best := Foremost(wanted, rest);
      if PathLess(wanted[first], wanted[best]) {
        NotBoth(wanted[first], wanted[best]);
        t := best;
      }
      forall u | u in among
        ensures !PathLess(wanted[t], wanted[u])
      {
        if t == first && u != first {
          AtLeast(wanted[first], wanted[best], wanted[u]);
        }
      }
    }
  }

  lemma NotBoth(a: ObjectPath, b: ObjectPath)
    requires PathLess(a, b)
    ensures !PathLess(b, a)
  {
    PathIrreflexive(a);
    if PathLess(b, a) {
      PathTransitive(a, b, a);
    }
  }

  /** If `b` is not above `a`, then what `b` does not reach `a` does not reach either. */
  lemma AtLeast(a: ObjectPath, b: ObjectPath, c: ObjectPath)
    requires !PathLess(a, b) && !PathLess(b, c)
    ensures !PathLess(a, c)
  {
    if PathLess(a, c) && a != b {
      PathTotal(a, b);
      PathTransitive(b, a, c);
    }
  }

  /** While a task waits, some task can take its next lock, or holds everything it refers to and can only let go. */
  lemma SomeoneProceeds(actions: seq<Action>, task: nat)
    requires After(actions).Some? && Waiting(After(actions).value, task)
    ensures exists t :: t in After(actions).value.tasks
                     && (CanLock(After(actions).value, t) || Complete(After(actions).value.tasks[t]))
  {
    RunKeepsInv(actions);
    ForemostProceeds(After(actions).value, task);
  }

  lemma ForemostProceeds(s: Locks, task: nat)
    requires Inv(s) && Waiting(s, task)
    ensures exists t :: t in s.tasks && (CanLock(s, t) || Complete(s.tasks[t]))
  {
    var waiting := set t | t in s.tasks && !Complete(s.tasks[t]);
    assert forall t :: t in s.tasks ==> TaskOk(s.table, s.tasks[t]);
    var wanted := map t | t in waiting :: Wanted(s, t);
    assert task in waiting;
    var t := Foremost(wanted, waiting);
    if !CanLock(s, t) {
      var u :| u in s.tasks && Owns(s.tasks[u], s.tasks[t].mutexes[s.tasks[t].held]);
      if u in waiting {
        WantedGrows(s, t, u);
      }
    }
  }
}
