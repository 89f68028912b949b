/**
  The batch half of the decision machine: executor nomination, the one-slot
  prepare/commit/abort protocol, replay retention and finalization.
 */
module BatchLedger {
  import opened Prelude
  import opened ConsensusTypes

  type Invocations = map<nat, CommittedInvocation>
  type Outcome = Result<ApplyResult, ApplyError>

  datatype Ledger = Ledger(
    maxEntries: nat, maxBytes: nat,
    executor: Option<Nomination>, preparing: Option<PreparedBatch>,
    committed: Invocations, lastCommit: Option<nat>, finalized: Option<nat>)

  // ---- Encoded sizes (fixed-width integers, 32-byte digests, 4-byte variant tags)

  const EMPTY_BYTES: nat := 8

  function AuthorityBytes(a: Authority): nat {
    4 + match a case StoredProgram(_, _) => 64 case BuiltIn(_, _) => 4
  }

  /** A commit cursor with its invocation: two digests, two times, then the batch. */
  function EntryBytes(e: CommittedInvocation): nat {
    8 + 2 * 32 + 2 * 8 + (4 * 8 + AuthorityBytes(e.batch.authority) + (32 + 8) + 3 * 32)
  }

  ghost function SumBytes(m: Invocations): nat {
    if m == map[] then 0
    else
      var k :| k in m;
      EntryBytes(m[k]) + SumBytes(m - {k})
  }

  /** The sum does not depend on the order in which entries are taken out. */
  lemma {:induction false} SumRemove(m: Invocations, k: nat)
    requires k in m
    ensures SumBytes(m) == EntryBytes(m[k]) + SumBytes(m - {k})
    decreases |m|
  {
    var c :| c in m && SumBytes(m) == EntryBytes(m[c]) + SumBytes(m - {c});
    if c != k {
      OneLess(m, c);
      OneLess(m, k);
      SumRemove(m - {c}, k);
      SumRemove(m - {k}, c);
      assert m - {c} - {k} == m - {k} - {c};
    }
  }

  lemma OneLess(m: Invocations, k: nat)
    requires k in m
    ensures |m - {k}| == |m| - 1
  {
    assert (m - {k}).Keys == m.Keys - {k} && |(m - {k}).Keys| == |m.Keys| - 1;
  }

  lemma SumAdd(m: Invocations, k: nat, e: CommittedInvocation)
    requires k !in m
    ensures SumBytes(m[k := e]) == EntryBytes(e) + SumBytes(m)
  {
    SumRemove(m[k := e], k);
    assert m[k := e] - {k} == m;
  }

  // ---- Decisions as functions of the ledger

  function RequireExecutor(l: Ledger, executor: NodeId, nomination: nat): Option<ApplyError> {
    if !ValidNode(executor) then Some(InvalidNodeId)
    else if l.executor.None? then Some(ExecutorNotNominated)
    else if l.executor.value.executor != executor then Some(NotCurrentExecutor)
    else if l.executor.value.index != nomination then Some(NominationFenceMismatch)
    else None
  }

  predicate ValidAuthority(a: Authority) {
    match a
    case StoredProgram(path, program) => path != 0 && program != 0
    case BuiltIn(kind, version) => kind != 0 && version != 0
  }

  function MalformedBatch(r: BeginBatch): Option<ApplyError> {
    if !ValidNode(r.executor) then Some(InvalidNodeId)
    else if !ValidAuthority(r.authority) then Some(InvalidBundleAuthority)
    else if r.invocation == 0 then Some(InvalidInvocationId)
    else if r.fingerprint == 0 then Some(InvalidInvocationFingerprint)
    else if r.bundle.hash == 0 || r.bundle.length == 0 then Some(InvalidBundleRef)
    else if r.durabilityClass == 0 then Some(InvalidDurabilityClass)
    else if r.durabilityEvidence == 0 then Some(InvalidDurabilityEvidence)
    else if r.manifest == 0 then Some(InvalidManifest)
    else if r.proposedAt == 0 then Some(InvalidProposalTime)
    else if r.proposedAt + RETENTION_MILLIS > MAX_U64 || r.expiresAt != r.proposedAt + RETENTION_MILLIS
    then Some(InvalidReplayExpiry)
    else None
  }

  function Nominate(l: Ledger, executor: NodeId, index: nat): (Ledger, Outcome) {
    if !ValidNode(executor) then (l, Err(InvalidNodeId))
    else
      var nomination := Nomination(executor, index);
      var preparing :=
        if l.preparing.None? then None
        else Some(l.preparing.value.(request := l.preparing.value.request.(executor := executor, nomination := index)));
      (l.(executor := Some(nomination), preparing := preparing), Ok(ExecutorNominated(nomination)))
  }

  /** Finalized entries whose replay window a proposal time has left behind. */
  predicate Expired(l: Ledger, k: nat, now: nat) {
    k in l.committed && l.finalized.Some? && k <= l.finalized.value && l.committed[k].expiresAt <= now
  }

  function Prune(l: Ledger, now: nat): Ledger {
    l.(committed := map k | k in l.committed && !Expired(l, k, now) :: l.committed[k])
  }

  predicate Retains(l: Ledger, invocation: Digest) {
    exists k :: k in l.committed && l.committed[k].invocation == invocation
  }

  ghost function Retained(l: Ledger, invocation: Digest): CommittedInvocation
    requires Retains(l, invocation)
  {
    var k :| k in l.committed && l.committed[k].invocation == invocation;
    l.committed[k]
  }

  predicate SameLogicalInputs(e: CommittedInvocation, r: BeginBatch) {
    e.batch.authority == r.authority && e.fingerprint == r.fingerprint && e.batch.manifest == r.manifest
  }

  function BeginRefusal(l: Ledger, r: BeginBatch): Option<ApplyError> {
    if MalformedBatch(r).Some? then MalformedBatch(r) else RequireExecutor(l, r.executor, r.nomination)
  }

  /** A begin that passes its checks prunes first, whatever it then answers. */
  ghost function BeginStep(l: Ledger, r: BeginBatch, index: nat): (Ledger, Outcome) {
    if BeginRefusal(l, r).Some? then (l, Err(BeginRefusal(l, r).value))
    else
      var p := Prune(l, r.proposedAt);
      if Retains(p, r.invocation) then
        (p, if SameLogicalInputs(Retained(p, r.invocation), r) then Ok(AlreadyCommitted(Retained(p, r.invocation)))
            else Err(IdempotencyConflict))
      else if p.preparing.Some? then
        (p, if p.preparing.value.request == r then Ok(BatchPrepared(p.preparing.value, true))
            else Err(BatchPreparationInProgress))
      else
        var prepared := PreparedBatch(index, r);
        (p.(preparing := Some(prepared)), Ok(BatchPrepared(prepared, false)))
  }

  predicate Matches(p: PreparedBatch, ref: PreparedRef) {
    && p.beginCursor == ref.beginCursor && p.request.executor == ref.executor
    && p.request.nomination == ref.nomination && p.request.invocation == ref.invocation
    && p.request.manifest == ref.manifest
  }

  function PreparedRefusal(l: Ledger, ref: PreparedRef): Option<ApplyError> {
    if RequireExecutor(l, ref.executor, ref.nomination).Some? then RequireExecutor(l, ref.executor, ref.nomination)
    else if l.preparing.None? then Some(NoPreparedBatch)
    else if !Matches(l.preparing.value, ref) then Some(PreparedIdentityMismatch)
    else None
  }

  function EntryFor(p: PreparedBatch, index: nat): CommittedInvocation {
    var r := p.request;
    CommittedInvocation(r.invocation, r.fingerprint, r.proposedAt, r.expiresAt,
      CommittedBatch(index, r.executor, r.nomination, p.beginCursor, r.authority, r.bundle,
                     r.durabilityClass, r.durabilityEvidence, r.manifest))
  }

  /** The unfinalized recovery tail. */
  function Tail(l: Ledger): Invocations {
    var floor := if l.finalized.Some? then l.finalized.value else 0;
    map k | k in l.committed && floor < k :: l.committed[k]
  }

  /** The replay window is bounded by fixed limits, the unfinalized tail by the configured ones. */
  ghost function CapacityRefusal(l: Ledger, bytes: nat): Option<ApplyError> {
    if |l.committed| + 1 > MAX_COMMITTED_INVOCATIONS || EMPTY_BYTES + SumBytes(l.committed) + bytes > MAX_COMMITTED_BYTES
    then Some(InvocationWindowFull)
    else if |Tail(l)| + 1 > l.maxEntries || SumBytes(Tail(l)) + bytes > l.maxBytes then Some(CommitTailFull)
    else None
  }

  ghost function CommitRefusal(l: Ledger, ref: PreparedRef, index: nat): Option<ApplyError> {
    if PreparedRefusal(l, ref).Some? then PreparedRefusal(l, ref)
    else if l.lastCommit.Some? && index <= l.lastCommit.value then Some(CommitCursorDidNotAdvance)
    else if l.finalized.Some? && index <= l.finalized.value then Some(CommitCursorNotAfterFinalization)
    else CapacityRefusal(l, EntryBytes(EntryFor(l.preparing.value, index)))
  }

  ghost function CommitStep(l: Ledger, ref: PreparedRef, index: nat): (Ledger, Outcome) {
    if CommitRefusal(l, ref, index).Some? then (l, Err(CommitRefusal(l, ref, index).value))
    else
      var entry := EntryFor(l.preparing.value, index);
      (l.(committed := l.committed[index := entry], lastCommit := Some(index), preparing := None), Ok(BatchCommitted(entry)))
  }

  function AbortStep(l: Ledger, ref: PreparedRef): (Ledger, Outcome) {
    if PreparedRefusal(l, ref).Some? then (l, Err(PreparedRefusal(l, ref).value))
    else (l.(preparing := None), Ok(BatchAborted(ref.beginCursor)))
  }

  function FinalizeRefusal(l: Ledger, executor: NodeId, nomination: nat, through: nat): Option<ApplyError> {
    if RequireExecutor(l, executor, nomination).Some? then RequireExecutor(l, executor, nomination)
    else if l.finalized.Some? && through < l.finalized.value then Some(FinalizedThroughRegressed)
    else if l.finalized == Some(through) then None
    else if l.lastCommit.None? then Some(NoCommittedBatchToFinalize)
    else if through > l.lastCommit.value then Some(FinalizedBeyondLastCommit)
    else None
  }

  function FinalizeStep(l: Ledger, executor: NodeId, nomination: nat, through: nat): (Ledger, Outcome) {
    var refusal := FinalizeRefusal(l, executor, nomination, through);
    if refusal.Some? then (l, Err(refusal.value))
    else (l.(finalized := Some(through)), Ok(FinalizationAdvanced(through)))
  }

  // ---- The mutable ledger

  /** Retained entries carry distinct invocation identities. */
  predicate DistinctInvocations(m: Invocations) {
    forall j, k :: j in m && k in m && m[j].invocation == m[k].invocation ==> j == k
  }

  class StateMachine {
    const maxCommitEntries: nat
    const maxCommitBytes: nat
    var executor: Option<Nomination>
    var preparingBatch: Option<PreparedBatch>
    var committedInvocations: Invocations
    var committedInvocationBytes: nat
    var lastCommitCursor: Option<nat>
    var finalizedThrough: Option<nat>

    ghost function View(): Ledger
      reads this
    {
      Ledger(maxCommitEntries, maxCommitBytes, executor, preparingBatch, committedInvocations, lastCommitCursor, finalizedThrough)
    }

    /** The running byte counter is the size of what is retained. */
    ghost predicate Valid()
      reads this
    {
      && committedInvocationBytes == EMPTY_BYTES + SumBytes(committedInvocations) <= MAX_COMMITTED_BYTES
      && DistinctInvocations(committedInvocations)
      && (forall k :: k in committedInvocations ==> lastCommitCursor.Some? && k <= lastCommitCursor.value)
      && (preparingBatch.Some? ==> !Retains(View(), preparingBatch.value.request.invocation))
    }

    constructor (maxEntries: nat, maxBytes: nat)
      ensures Valid() && View() == Ledger(maxEntries, maxBytes, None, None, map[], None, None)
    {
      maxCommitEntries, maxCommitBytes := maxEntries, maxBytes;
      executor, preparingBatch, committedInvocations := None, None, map[];
      committedInvocationBytes, lastCommitCursor, finalizedThrough := EMPTY_BYTES, None, None;
    }

    method NominateExecutor(candidate: NodeId, index: nat) returns (r: Outcome)
      requires Valid()
      modifies this
      ensures Valid() && (View(), r) == Nominate(old(View()), candidate, index)
    {
      if !ValidNode(candidate) {
        return Err(InvalidNodeId);
      }
      var nomination := Nomination(candidate, index);
      if preparingBatch.Some? {
        var prepared := preparingBatch.value;
        preparingBatch := Some(prepared.(request := prepared.request.(executor := candidate, nomination := index)));
      }
      executor := Some(nomination);
      return Ok(ExecutorNominated(nomination));
    }

    method CheckExecutor(candidate: NodeId, nomination: nat) returns (e: Option<ApplyError>)
      ensures e == RequireExecutor(View(), candidate, nomination)
    {
      if !ValidNode(candidate) {
        return Some(InvalidNodeId);
      }
      if executor.None? {
        return Some(ExecutorNotNominated);
      }
      if executor.value.executor != candidate {
        return Some(NotCurrentExecutor);
      }
      if executor.value.index != nomination {
        return Some(NominationFenceMismatch);
      }
      return None;
    }

    method ExpiredFinalizedCursors(now: nat) returns (cursors: seq<nat>)
      ensures forall k :: k in cursors <==> Expired(View(), k, now)
      ensures forall i :: 0 <= i < |cursors| ==> Expired(View(), cursors[i], now)
      ensures forall i, j :: 0 <= i < j < |cursors| ==> cursors[i] != cursors[j]
    {
      cursors := [];
      if finalizedThrough.None? {
        return;
      }
      var rest := committedInvocations.Keys;
      while rest != {}
        invariant rest <= committedInvocations.Keys
        invariant forall k :: k in cursors <==> Expired(View(), k, now) && k !in rest
        invariant forall i :: 0 <= i < |cursors| ==> Expired(View(), cursors[i], now)
        invariant forall i, j :: 0 <= i < j < |cursors| ==> cursors[i] != cursors[j]
        decreases rest
      {
        var k :| k in rest;
        rest := rest - {k};
        if k <= finalizedThrough.value && committedInvocations[k].expiresAt <= now {
          cursors := cursors + [k];
        }
      }
    }

    /** The accounting errors of the loop cannot happen: every cursor is present and was counted. */
    method PruneCommittedInvocations(cursors: seq<nat>) returns (e: Option<ApplyError>)
      requires Valid()
      requires forall i :: 0 <= i < |cursors| ==> cursors[i] in committedInvocations
      requires forall i, j :: 0 <= i < j < |cursors| ==> cursors[i] != cursors[j]
      modifies this`committedInvocations, this`committedInvocationBytes
      ensures Valid() && e.None?
      ensures committedInvocations == old(committedInvocations) - (set k | k in cursors)
    {
      ghost var before := View();
      e := RemoveEach(cursors);
      assert View() == before.(committed := committedInvocations);
      FewerEntries(before, committedInvocations);
    }

    method RemoveEach(cursors: seq<nat>) returns (e: Option<ApplyError>)
      requires committedInvocationBytes == EMPTY_BYTES + SumBytes(committedInvocations)
      requires forall i :: 0 <= i < |cursors| ==> cursors[i] in committedInvocations
      requires forall i, j :: 0 <= i < j < |cursors| ==> cursors[i] != cursors[j]
      modifies this`committedInvocations, this`committedInvocationBytes
      ensures e.None? && committedInvocationBytes == EMPTY_BYTES + SumBytes(committedInvocations)
      ensures committedInvocations == old(committedInvocations) - (set k | k in cursors)
    {
      for i := 0 to |cursors|
        invariant committedInvocationBytes == EMPTY_BYTES + SumBytes(committedInvocations)
        invariant committedInvocations == old(committedInvocations) - (set k | k in cursors[..i])
        invariant forall j :: i <= j < |cursors| ==> cursors[j] in committedInvocations
      {
        var cursor := cursors[i];
        if cursor !in committedInvocations {
          return Some(AccountingCorrupt);
        }
        var bytes := EntryBytes(committedInvocations[cursor]);
        SumRemove(committedInvocations, cursor);
        assert cursors[..i + 1] == cursors[..i] + [cursor];
        if committedInvocationBytes < bytes {
          return Some(AccountingCorrupt);
        }
        committedInvocations := committedInvocations - {cursor};
        committedInvocationBytes := committedInvocationBytes - bytes;
      }
      assert cursors[..|cursors|] == cursors;
      return None;
    }

    method PruneExpired(now: nat) returns (e: Option<ApplyError>)
      requires Valid()
      modifies this`committedInvocations, this`committedInvocationBytes
      ensures Valid() && e.None? && View() == Prune(old(View()), now)
    {
      ghost var before := View();
      var expired := ExpiredFinalizedCursors(now);
      PrunedEntries(before, now, expired);
      e := PruneCommittedInvocations(expired);
    }

    method FindInvocation(invocation: Digest) returns (found: Option<CommittedInvocation>)
      requires Valid()
      ensures found.Some? <==> Retains(View(), invocation)
      ensures found.Some? ==> found.value == Retained(View(), invocation)
    {
      var rest := committedInvocations.Keys;
      while rest != {}
        invariant rest <= committedInvocations.Keys
        invariant forall k :: k in committedInvocations && k !in rest ==> committedInvocations[k].invocation != invocation
        decreases rest
      {
        var k :| k in rest;
        if committedInvocations[k].invocation == invocation {
          return Some(committedInvocations[k]);
        }
        rest := rest - {k};
      }
      return None;
    }

    method BeginBatchAt(index: nat, batch: BeginBatch) returns (r: Outcome)
      requires Valid()
      modifies this
      ensures Valid() && (View(), r) == BeginStep(old(View()), batch, index)
    {
      if MalformedBatch(batch).Some? {
        return Err(MalformedBatch(batch).value);
      }
      var refused := CheckExecutor(batch.executor, batch.nomination);
      if refused.Some? {
        return Err(refused.value);
      }
      var corrupt := PruneExpired(batch.proposedAt);
      if corrupt.Some? {
        return Err(AccountingCorrupt);
      }
      var existing := FindInvocation(batch.invocation);
      if existing.Some? {
        if !SameLogicalInputs(existing.value, batch) {
          return Err(IdempotencyConflict);
        }
        return Ok(AlreadyCommitted(existing.value));
      }
      if preparingBatch.Some? {
        if preparingBatch.value.request == batch {
          return Ok(BatchPrepared(preparingBatch.value, true));
        }
        return Err(BatchPreparationInProgress);
      }
      var prepared := PreparedBatch(index, batch);
      preparingBatch := Some(prepared);
      return Ok(BatchPrepared(prepared, false));
    }

    /** Length and size of the unfinalized tail, folded over the retained entries. */
    method MeasureTail() returns (entries: nat, bytes: Result<nat, ApplyError>)
      requires Valid()
      ensures entries == |Tail(View())| && bytes == Ok(SumBytes(Tail(View())))
    {
      var floor := if finalizedThrough.Some? then finalizedThrough.value else 0;
      var tail := map k | k in committedInvocations && floor < k :: committedInvocations[k];
      TailWithin(View());
      entries, bytes := MeasureEntries(tail);
    }

    /** The checked sum cannot overflow: what is retained is bounded far below a 64-bit count. */
    static method MeasureEntries(tail: Invocations) returns (entries: nat, bytes: Result<nat, ApplyError>)
      requires SumBytes(tail) <= MAX_U64
      ensures entries == |tail| && bytes == Ok(SumBytes(tail))
    {
      var rest := tail;
      var total := 0;
      entries := 0;
      while rest != map[]
        invariant rest.Keys <= tail.Keys && (forall k :: k in rest ==> rest[k] == tail[k])
        invariant entries + |rest| == |tail| && total + SumBytes(rest) == SumBytes(tail)
        decreases |rest|
      {
        var k :| k in rest;
        SumRemove(rest, k);
        OneLess(rest, k);
        if total + EntryBytes(rest[k]) > MAX_U64 {
          return entries, Err(ByteCountExhausted);
        }
        total := total + EntryBytes(rest[k]);
        entries := entries + 1;
        rest := rest - {k};
      }
      return entries, Ok(total);
    }

    method CheckPrepared(ref: PreparedRef) returns (e: Option<ApplyError>)
      ensures e == PreparedRefusal(View(), ref)
    {
      var refused := CheckExecutor(ref.executor, ref.nomination);
      if refused.Some? {
        return refused;
      }
      if preparingBatch.None? {
        return Some(NoPreparedBatch);
      }
      return if Matches(preparingBatch.value, ref) then None else Some(PreparedIdentityMismatch);
    }

    /** Both windows have room for an entry of this size; sums near the 64-bit limit cannot occur. */
    method CheckCapacity(bytes: nat) returns (e: Option<ApplyError>)
      requires Valid() && bytes <= MAX_COMMITTED_BYTES
      ensures e == CapacityRefusal(View(), bytes)
    {
      var replayBytes := committedInvocationBytes + bytes;
      if replayBytes > MAX_U64 {
        return Some(ByteCountExhausted);
      }
      if |committedInvocations| + 1 > MAX_COMMITTED_INVOCATIONS || replayBytes > MAX_COMMITTED_BYTES {
        return Some(InvocationWindowFull);
      }
      var tailEntries, tailBytes := MeasureTail();
      if tailBytes.Err? {
        return Some(ByteCountExhausted);
      }
      TailWithin(View());
      if tailBytes.value + bytes > MAX_U64 {
        return Some(ByteCountExhausted);
      }
      if tailEntries + 1 > maxCommitEntries || tailBytes.value + bytes > maxCommitBytes {
        return Some(CommitTailFull);
      }
      return None;
    }

    method CheckCommit(index: nat, ref: PreparedRef) returns (e: Option<ApplyError>)
      requires Valid()
      ensures e == CommitRefusal(View(), ref, index)
    {
      var refused := CheckPrepared(ref);
      if refused.Some? {
        return refused;
      }
      if lastCommitCursor.Some? && index <= lastCommitCursor.value {
        return Some(CommitCursorDidNotAdvance);
      }
      if finalizedThrough.Some? && index <= finalizedThrough.value {
        return Some(CommitCursorNotAfterFinalization);
      }
      e := CheckCapacity(EntryBytes(EntryFor(preparingBatch.value, index)));
    }

    method CommitPreparedBatch(index: nat, ref: PreparedRef) returns (r: Outcome)
      requires Valid()
      modifies this
      ensures Valid() && (View(), r) == CommitStep(old(View()), ref, index)
    {
      var refused := CheckCommit(index, ref);
      if refused.Some? {
        return Err(refused.value);
      }
      var entry := EntryFor(preparingBatch.value, index);
      CommitFits(View(), index, entry);
      committedInvocations := committedInvocations[index := entry];
      committedInvocationBytes := committedInvocationBytes + EntryBytes(entry);
      lastCommitCursor := Some(index);
      preparingBatch := None;
      return Ok(BatchCommitted(entry));
    }

    method AbortPreparedBatch(ref: PreparedRef) returns (r: Outcome)
      requires Valid()
      modifies this
      ensures Valid() && (View(), r) == AbortStep(old(View()), ref)
    {
      var refused := CheckPrepared(ref);
      if refused.Some? {
        return Err(refused.value);
      }
      preparingBatch := None;
      return Ok(BatchAborted(ref.beginCursor));
    }

    method AdvanceFinalization(candidate: NodeId, nomination: nat, through: nat) returns (r: Outcome)
      requires Valid()
      modifies this
      ensures Valid() && (View(), r) == FinalizeStep(old(View()), candidate, nomination, through)
    {
      var refused := CheckExecutor(candidate, nomination);
      if refused.Some? {
        return Err(refused.value);
      }
      if finalizedThrough.Some? {
        if through < finalizedThrough.value {
          return Err(FinalizedThroughRegressed);
        }
        if through == finalizedThrough.value {
          return Ok(FinalizationAdvanced(through));
        }
      }
      if lastCommitCursor.None? {
        return Err(NoCommittedBatchToFinalize);
      }
      if through > lastCommitCursor.value {
        return Err(FinalizedBeyondLastCommit);
      }
      finalizedThrough := Some(through);
      return Ok(FinalizationAdvanced(through));
    }
  }

  lemma PrunedEntries(l: Ledger, now: nat, cursors: seq<nat>)
    requires forall k :: k in cursors <==> Expired(l, k, now)
    ensures l.committed - (set k | k in cursors) == Prune(l, now).committed
  {
    var gone := set k | k in cursors;
    assert forall k :: k in gone <==> Expired(l, k, now);
  }

  /** Dropping retained entries keeps the rest distinct, counted and apart from the preparing batch. */
  lemma FewerEntries(l: Ledger, fewer: Invocations)
    requires fewer.Keys <= l.committed.Keys && forall k :: k in fewer ==> fewer[k] == l.committed[k]
    ensures DistinctInvocations(l.committed) ==> DistinctInvocations(fewer)
    ensures SumBytes(fewer) <= SumBytes(l.committed)
    ensures forall invocation :: Retains(l.(committed := fewer), invocation) ==> Retains(l, invocation)
  {
    SumWithin(fewer, l.committed);
  }

  lemma InsertKeepsDistinct(l: Ledger, index: nat, entry: CommittedInvocation)
    requires DistinctInvocations(l.committed) && !Retains(l, entry.invocation)
    ensures DistinctInvocations(l.committed[index := entry])
  {
  }

  lemma CommitFits(l: Ledger, index: nat, entry: CommittedInvocation)
    requires DistinctInvocations(l.committed) && !Retains(l, entry.invocation)
    requires forall k :: k in l.committed ==> k < index
    requires CapacityRefusal(l, EntryBytes(entry)).None?
    ensures var grown := l.committed[index := entry];
            && SumBytes(grown) == EntryBytes(entry) + SumBytes(l.committed)
            && EMPTY_BYTES + SumBytes(grown) <= MAX_COMMITTED_BYTES
            && DistinctInvocations(grown) && forall k :: k in grown ==> k <= index
  {
    SumAdd(l.committed, index, entry);
    InsertKeepsDistinct(l, index, entry);
  }

  lemma {:induction false} SumWithin(part: Invocations, whole: Invocations)
    requires part.Keys <= whole.Keys && forall k :: k in part ==> part[k] == whole[k]
    ensures SumBytes(part) <= SumBytes(whole) && |part| <= |whole|
    decreases |part|
  {
    if part != map[] {
      var k :| k in part;
      SumRemove(part, k);
      SumRemove(whole, k);
      assert (part - {k}).Keys == part.Keys - {k} && |(part - {k}).Keys| == |part.Keys| - 1;
      assert (whole - {k}).Keys == whole.Keys - {k} && |(whole - {k}).Keys| == |whole.Keys| - 1;
      SumWithin(part - {k}, whole - {k});
    }
  }

  lemma TailWithin(l: Ledger)
    ensures SumBytes(Tail(l)) <= SumBytes(l.committed) && |Tail(l)| <= |l.committed|
  {
    SumWithin(Tail(l), l.committed);
  }

  // ---- What every decision keeps; `n` is the index of the next log entry

  /** The preparing batch always carries the nomination in force. */
  predicate Fenced(l: Ledger) {
    l.preparing.Some? ==>
      l.executor == Some(Nomination(l.preparing.value.request.executor, l.preparing.value.request.nomination))
  }

  predicate CursorsOk(l: Ledger, n: nat) {
    && (l.executor.Some? ==> l.executor.value.index < n)
    && (l.lastCommit.Some? ==> l.lastCommit.value < n)
    && (l.finalized.Some? ==> l.lastCommit.Some? && l.finalized.value <= l.lastCommit.value)
    && (l.preparing.Some? ==>
          && 0 < l.preparing.value.beginCursor < n
          && (l.lastCommit.Some? ==> l.lastCommit.value < l.preparing.value.beginCursor)
          && l.preparing.value.request.expiresAt == l.preparing.value.request.proposedAt + RETENTION_MILLIS)
  }

  predicate EntryOk(l: Ledger, k: nat, e: CommittedInvocation) {
    && e.batch.commitCursor == k && 0 < e.batch.beginCursor < k
    && l.lastCommit.Some? && k <= l.lastCommit.value
    && l.executor.Some? && e.batch.nomination <= l.executor.value.index
    && e.expiresAt == e.proposedAt + RETENTION_MILLIS
  }

  /** One batch began after the other had committed, under the same nomination or a later one. */
  predicate Before(d: CommittedInvocation, e: CommittedInvocation) {
    d.batch.commitCursor < e.batch.beginCursor && d.batch.nomination <= e.batch.nomination
  }

  predicate EntriesOk(l: Ledger) {
    && (forall k :: k in l.committed ==> EntryOk(l, k, l.committed[k]))
    && (forall j, k :: j in l.committed && k in l.committed && j < k ==> Before(l.committed[j], l.committed[k]))
  }

  predicate IdentitiesOk(l: Ledger) {
    && DistinctInvocations(l.committed)
    && (l.preparing.Some? ==> !Retains(l, l.preparing.value.request.invocation))
  }

  ghost predicate SizesOk(l: Ledger) {
    && |l.committed| <= MAX_COMMITTED_INVOCATIONS && EMPTY_BYTES + SumBytes(l.committed) <= MAX_COMMITTED_BYTES
    && |Tail(l)| <= l.maxEntries && SumBytes(Tail(l)) <= l.maxBytes
  }

  ghost predicate LedgerInv(l: Ledger, n: nat) {
    Fenced(l) && CursorsOk(l, n) && EntriesOk(l) && IdentitiesOk(l) && SizesOk(l)
  }

  lemma EmptyLedgerInv(maxEntries: nat, maxBytes: nat)
    ensures LedgerInv(Ledger(maxEntries, maxBytes, None, None, map[], None, None), 0)
  {
  }

  /** Steps that leave the retained entries and their limits alone. */
  lemma EntriesKept(l: Ledger, l': Ledger)
    requires EntriesOk(l) && l'.committed == l.committed && l'.lastCommit == l.lastCommit
    requires l.executor.Some? ==> l'.executor.Some? && l.executor.value.index <= l'.executor.value.index
    ensures EntriesOk(l')
  {
    forall k | k in l'.committed
      ensures EntryOk(l', k, l'.committed[k])
    {
      assert EntryOk(l, k, l.committed[k]);
    }
  }

  lemma SizesKept(l: Ledger, l': Ledger)
    requires SizesOk(l) && l'.committed == l.committed && l'.maxEntries == l.maxEntries && l'.maxBytes == l.maxBytes
    requires l.finalized.Some? ==> l'.finalized.Some? && l.finalized.value <= l'.finalized.value
    ensures SizesOk(l')
  {
    SumWithin(Tail(l'), Tail(l));
  }

  lemma NominateKeepsInv(l: Ledger, executor: NodeId, n: nat)
    requires LedgerInv(l, n)
    ensures LedgerInv(Nominate(l, executor, n).0, n + 1)
  {
    var l' := Nominate(l, executor, n).0;
    EntriesKept(l, l');
    SizesKept(l, l');
    assert forall invocation :: Retains(l', invocation) ==> Retains(l, invocation);
  }

  lemma PruneKeepsEntries(l: Ledger, now: nat)
    requires EntriesOk(l) && IdentitiesOk(l)
    ensures EntriesOk(Prune(l, now)) && IdentitiesOk(Prune(l, now))
  {
    var p := Prune(l, now);
    forall k | k in p.committed
      ensures EntryOk(p, k, p.committed[k])
    {
      assert EntryOk(l, k, l.committed[k]);
    }
    assert forall invocation :: Retains(p, invocation) ==> Retains(l, invocation);
  }

  /** Pruning removes finalized entries only, so the recovery tail is untouched. */
  lemma PruneKeepsSizes(l: Ledger, now: nat)
    requires SizesOk(l)
    ensures SizesOk(Prune(l, now)) && Tail(Prune(l, now)) == Tail(l)
  {
    var p := Prune(l, now);
    SumWithin(p.committed, l.committed);
    assert Tail(p) == Tail(l);
  }

  lemma BeginKeepsInv(l: Ledger, r: BeginBatch, n: nat)
    requires LedgerInv(l, n)
    ensures LedgerInv(BeginStep(l, r, n).0, n + 1)
  {
    if BeginRefusal(l, r).None? {
      var p := Prune(l, r.proposedAt);
      PruneKeepsEntries(l, r.proposedAt);
      PruneKeepsSizes(l, r.proposedAt);
      if !Retains(p, r.invocation) && p.preparing.None? {
        var l' := p.(preparing := Some(PreparedBatch(n, r)));
        PrepareKeepsRest(p, PreparedBatch(n, r));
        assert BeginStep(l, r, n).0 == l';
      } else {
        assert BeginStep(l, r, n).0 == p;
      }
    }
  }

  lemma PrepareKeepsRest(p: Ledger, prepared: PreparedBatch)
    requires EntriesOk(p) && SizesOk(p) && IdentitiesOk(p) && !Retains(p, prepared.request.invocation)
    ensures var l := p.(preparing := Some(prepared)); EntriesOk(l) && SizesOk(l) && IdentitiesOk(l)
  {
    var l := p.(preparing := Some(prepared));
    assert Tail(l) == Tail(p);
    forall k | k in l.committed
      ensures EntryOk(l, k, l.committed[k])
    {
      assert EntryOk(p, k, p.committed[k]);
    }
    assert Retains(l, prepared.request.invocation) ==> Retains(p, prepared.request.invocation);
  }

  lemma CommitKeepsInv(l: Ledger, ref: PreparedRef, n: nat)
    requires LedgerInv(l, n)
    ensures LedgerInv(CommitStep(l, ref, n).0, n + 1)
    ensures CommitStep(l, ref, n).1.Err? ==>
              CommitStep(l, ref, n).1.error !in {CommitCursorDidNotAdvance, CommitCursorNotAfterFinalization}
  {
    if CommitRefusal(l, ref, n).None? {
      assert n !in l.committed by {
        assert n in l.committed ==> EntryOk(l, n, l.committed[n]);
      }
      CommitKeepsSizes(l, CommitStep(l, ref, n).0, n, EntryFor(l.preparing.value, n));
      InsertKeepsDistinct(l, n, EntryFor(l.preparing.value, n));
      CommitKeepsEntries(l, ref, n);
    }
  }

  lemma CommitKeepsSizes(l: Ledger, l': Ledger, n: nat, entry: CommittedInvocation)
    requires SizesOk(l) && CapacityRefusal(l, EntryBytes(entry)).None?
    requires n !in l.committed && (if l.finalized.Some? then l.finalized.value else 0) < n
    requires l'.committed == l.committed[n := entry] && l'.finalized == l.finalized
    requires l'.maxEntries == l.maxEntries && l'.maxBytes == l.maxBytes
    ensures SizesOk(l')
  {
    var tail := Tail(l);
    assert Tail(l') == tail[n := entry];
    SumAdd(l.committed, n, entry);
    SumAdd(tail, n, entry);
    assert |l'.committed| == |l.committed| + 1;
    assert |Tail(l')| == |tail| + 1;
  }

  lemma CommitKeepsEntries(l: Ledger, ref: PreparedRef, n: nat)
    requires LedgerInv(l, n) && CommitRefusal(l, ref, n).None?
    ensures EntriesOk(CommitStep(l, ref, n).0)
  {
    var l' := CommitStep(l, ref, n).0;
    forall k | k in l'.committed
      ensures EntryOk(l', k, l'.committed[k])
    {
      assert k in l.committed ==> EntryOk(l, k, l.committed[k]);
    }
    forall j, k | j in l'.committed && k in l'.committed && j < k
      ensures Before(l'.committed[j], l'.committed[k])
    {
      assert j in l.committed && EntryOk(l, j, l.committed[j]);
    }
  }

  lemma AbortKeepsInv(l: Ledger, ref: PreparedRef, n: nat)
    requires LedgerInv(l, n)
    ensures LedgerInv(AbortStep(l, ref).0, n + 1)
  {
    EntriesKept(l, AbortStep(l, ref).0);
    SizesKept(l, AbortStep(l, ref).0);
  }

  lemma FinalizeKeepsInv(l: Ledger, executor: NodeId, nomination: nat, through: nat, n: nat)
    requires LedgerInv(l, n)
    ensures LedgerInv(FinalizeStep(l, executor, nomination, through).0, n + 1)
  {
    var l' := FinalizeStep(l, executor, nomination, through).0;
    EntriesKept(l, l');
    SizesKept(l, l');
    assert forall invocation :: Retains(l', invocation) ==> Retains(l, invocation);
  }

  /** Entries are so small that the byte limit of the replay window never decides: only the entry count does. */
  lemma WindowCountDecides(l: Ledger, n: nat, e: CommittedInvocation)
    requires LedgerInv(l, n)
    ensures CapacityRefusal(l, EntryBytes(e)) == Some(InvocationWindowFull) <==> |l.committed| == MAX_COMMITTED_INVOCATIONS
  {
    SumBounded(l.committed);
  }

  lemma {:induction false} SumBounded(m: Invocations)
    ensures SumBytes(m) <= 324 * |m|
    decreases |m|
  {
    if m != map[] {
      var k :| k in m;
      SumRemove(m, k);
      assert (m - {k}).Keys == m.Keys - {k} && |(m - {k}).Keys| == |m.Keys| - 1;
      SumBounded(m - {k});
    }
  }

  // ---- What a refusal leaves behind

  /** A refused begin leaves the ledger alone exactly when it failed its checks or found nothing to prune. */
  lemma RefusedBeginUnchangedIff(l: Ledger, r: BeginBatch, n: nat)
    requires BeginStep(l, r, n).1.Err?
    ensures BeginStep(l, r, n).0 == l <==> BeginRefusal(l, r).Some? || forall k :: k in l.committed ==> !Expired(l, k, r.proposedAt)
  {
    var p := Prune(l, r.proposedAt);
    if forall k :: k in l.committed ==> !Expired(l, k, r.proposedAt) {
      assert p.committed == l.committed;
    } else {
      var k :| k in l.committed && Expired(l, k, r.proposedAt);
      assert k !in p.committed;
    }
  }

  const BATCH := BeginBatch(1, 0, BuiltIn(1, 1), 1, 1, Bundle(1, 1), 1, 1, 1, 1, 1 + RETENTION_MILLIS)

  function Referring(cursor: nat, r: BeginBatch): PreparedRef {
    PreparedRef(r.executor, r.nomination, cursor, r.invocation, r.manifest)
  }

  const OTHER := BATCH.(invocation := 2)
  const THIRD := BATCH.(invocation := 3, proposedAt := BATCH.expiresAt, expiresAt := BATCH.expiresAt + RETENTION_MILLIS)

  /** A batch begins and commits, another begins before the first expires, and the first is finalized. */
  ghost function PrunableRun(): seq<Ledger> {
    var l0 := Nominate(Ledger(1, 324, None, None, map[], None, None), 1, 0).0;
    var l1 := BeginStep(l0, BATCH, 1).0;
    var l2 := CommitStep(l1, Referring(1, BATCH), 2).0;
    var l3 := BeginStep(l2, OTHER, 3).0;
    [l0, l1, l2, l3, FinalizeStep(l3, 1, 0, 2).0]
  }

  /** In that run from a new ledger, a third begin at the expiry is refused for the second's sake and yet forgets the first. */
  lemma RefusedBeginMayPrune()
    ensures var l := PrunableRun()[4];
            && LedgerInv(l, 5) && l.committed.Keys == {2}
            && BeginStep(l, THIRD, 5) == (l.(committed := map[]), Err(BatchPreparationInProgress))
  {
    var run := PrunableRun();
    FirstBegin(run[0], run[1]);
    FirstCommit(run[1], run[2]);
    SecondBegin(run[2], run[3]);
    ThirdBegin(run[4]);
    PrunableRunKeepsInv();
  }

  lemma PrunableRunKeepsInv()
    ensures LedgerInv(PrunableRun()[4], 5)
  {
    EmptyLedgerInv(1, 324);
    CommitRunKeepsInv(Ledger(1, 324, None, None, map[], None, None), BATCH, Referring(1, BATCH));
    FinalizeRunKeepsInv(PrunableRun()[2], OTHER);
  }

  lemma CommitRunKeepsInv(l: Ledger, r: BeginBatch, ref: PreparedRef)
    requires LedgerInv(l, 0)
    ensures LedgerInv(CommitStep(BeginStep(Nominate(l, 1, 0).0, r, 1).0, ref, 2).0, 3)
  {
    NominateKeepsInv(l, 1, 0);
    var l0 := Nominate(l, 1, 0).0;
    BeginKeepsInv(l0, r, 1);
    CommitKeepsInv(BeginStep(l0, r, 1).0, ref, 2);
  }

  lemma FinalizeRunKeepsInv(l: Ledger, r: BeginBatch)
    requires LedgerInv(l, 3)
    ensures LedgerInv(FinalizeStep(BeginStep(l, r, 3).0, 1, 0, 2).0, 5)
  {
    BeginKeepsInv(l, r, 3);
    FinalizeKeepsInv(BeginStep(l, r, 3).0, 1, 0, 2, 4);
  }

  const COMMITTED := Ledger(1, 324, Some(Nomination(1, 0)), None, map[2 := EntryFor(PreparedBatch(1, BATCH), 2)], Some(2), None)

  lemma SecondBegin(l2: Ledger, l3: Ledger)
    requires l2 == COMMITTED && l3 == BeginStep(l2, OTHER, 3).0
    ensures l3 == l2.(preparing := Some(PreparedBatch(3, OTHER)))
  {
    assert Prune(l2, OTHER.proposedAt) == l2;
  }

  lemma ThirdBegin(l4: Ledger)
    requires l4 == COMMITTED.(preparing := Some(PreparedBatch(3, OTHER)), finalized := Some(2))
    ensures BeginStep(l4, THIRD, 5) == (l4.(committed := map[]), Err(BatchPreparationInProgress))
  {
    assert Prune(l4, THIRD.proposedAt) == l4.(committed := map[]);
  }

  lemma FirstBegin(l0: Ledger, l1: Ledger)
    requires l0 == Ledger(1, 324, Some(Nomination(1, 0)), None, map[], None, None) && l1 == BeginStep(l0, BATCH, 1).0
    ensures l1 == l0.(preparing := Some(PreparedBatch(1, BATCH)))
  {
    assert Prune(l0, BATCH.proposedAt) == l0;
  }

  lemma FirstCommit(l1: Ledger, l2: Ledger)
    requires l1 == Ledger(1, 324, Some(Nomination(1, 0)), Some(PreparedBatch(1, BATCH)), map[], None, None)
    requires l2 == CommitStep(l1, Referring(1, BATCH), 2).0
    ensures l2 == COMMITTED
  {
    assert Tail(l1) == map[];
    assert CapacityRefusal(l1, EntryBytes(EntryFor(PreparedBatch(1, BATCH), 2))).None?;
  }
}
