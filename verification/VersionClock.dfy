/**
  The bit-packed version clock: 42 bits of milliseconds since 2026, 10 bits of
  node identity and 12 bits of sequence in one 64-bit version. A word is a
  number below 2^64; the left shift is multiplication that drops what leaves
  the word, and `PackedFields` shows that the packed fields do not overlap.
 */
module Clock {
  import opened Prelude

  const WORD: int := 0x1_0000_0000_0000_0000

  type Word = w: int | 0 <= w < WORD

  const MAX_NODE_ID: Word := 1023
  const MAX_SEQUENCE: Word := 4095
  const MAX_WORD: Word := 0xFFFF_FFFF_FFFF_FFFF
  const CUSTOM_EPOCH_MILLIS: Word := 1_767_225_600_000
  /** Largest millisecond count that survives the 22-bit shift. */
  const LAST_MILLISECOND: Word := 0x3FF_FFFF_FFFF

  datatype ClockError = NodeIdTooLarge | ClockPredatesEpoch | TimestampOverflow

  datatype ClockState = ClockState(millisecond: Word, sequence: Word, highWatermark: Word)

  const MILLISECOND_UNIT := 0x40_0000
  const NODE_UNIT := 0x1000

  /**
    The bitwise or of the shifted fields is the 64-bit sum of the scaled fields. `Pack` below is that sum on integers,
    with the wrap-around of the shift written out; the step from words to integers is by reading.
   */
  lemma PackedFields(millisecond: bv64, node: bv64, sequence: bv64)
    requires node <= 1023 && sequence <= 4095
    ensures (millisecond << 22) | (node << 12) | sequence == millisecond * 0x40_0000 + node * 0x1000 + sequence
  {
  }

  /** A shift keeps the low 42 bits of the milliseconds. */
  lemma Shifted(millisecond: Word)
    ensures (millisecond * MILLISECOND_UNIT) % WORD == millisecond % (LAST_MILLISECOND + 1) * MILLISECOND_UNIT
  {
    var carried, kept := millisecond / (LAST_MILLISECOND + 1), millisecond % (LAST_MILLISECOND + 1);
    assert millisecond * MILLISECOND_UNIT == carried * WORD + kept * MILLISECOND_UNIT;
  }

  function Pack(millisecond: Word, node: Word, sequence: Word): Word
    requires node <= MAX_NODE_ID && sequence <= MAX_SEQUENCE
  {
    Shifted(millisecond);
    (millisecond * MILLISECOND_UNIT) % WORD + node * NODE_UNIT + sequence
  }

  function NodeOf(version: Word): Word {
    version / NODE_UNIT % (MAX_NODE_ID + 1)
  }

  /** The clock after the wall clock is folded in, before the watermark is compared. */
  function Advance(s: ClockState, unixMillis: Word): Result<ClockState, ClockError>
    requires s.sequence <= MAX_SEQUENCE
  {
    if unixMillis < CUSTOM_EPOCH_MILLIS then Err(ClockPredatesEpoch)
    else
      var elapsed := unixMillis - CUSTOM_EPOCH_MILLIS;
      if elapsed > s.millisecond then Ok(s.(millisecond := elapsed, sequence := 0))
      else if s.sequence != MAX_SEQUENCE then Ok(s.(sequence := s.sequence + 1))
      else if s.millisecond == MAX_WORD then Err(TimestampOverflow)
      else Ok(s.(millisecond := s.millisecond + 1, sequence := 0))
  }

  /** Above the watermark already, or moved to the first slot of the millisecond after it. */
  function Fence(s: ClockState, node: Word): ClockState
    requires WellFormed(s, node)
  {
    var candidate := Pack(s.millisecond, node, s.sequence);
    if candidate > s.highWatermark then s.(highWatermark := candidate)
    else
      var logical := s.highWatermark / MILLISECOND_UNIT + 1;
      ClockState(logical, 0, Pack(logical, node, 0))
  }

  /** One allocation; the issued version is the new watermark. */
  function NextState(s: ClockState, node: Word, unixMillis: Word): Result<ClockState, ClockError>
    requires WellFormed(s, node)
  {
    var advanced :- Advance(s, unixMillis);
    Ok(Fence(advanced, node))
  }

  predicate WellFormed(s: ClockState, node: Word) {
    node <= MAX_NODE_ID && s.sequence <= MAX_SEQUENCE
  }

  /** The guard of the failing branch: the allocation does not run off the 42-bit range. */
  predicate InRange(s: ClockState, node: Word, unixMillis: Word)
    requires WellFormed(s, node)
  {
    var advanced := Advance(s, unixMillis);
    || advanced.Err?
    || Pack(advanced.value.millisecond, node, advanced.value.sequence) > s.highWatermark
    || s.highWatermark / MILLISECOND_UNIT < LAST_MILLISECOND
  }

  class VersionClock {
    const nodeId: Word
    var millisecond: Word
    var sequence: Word
    var highWatermark: Word

    ghost function View(): ClockState
      reads this
    {
      ClockState(millisecond, sequence, highWatermark)
    }

    ghost predicate Valid()
      reads this
    {
      WellFormed(View(), nodeId)
    }

    constructor (node: Word, watermark: Word)
      requires node <= MAX_NODE_ID
      ensures Valid() && nodeId == node && View() == ClockState(0, 0, watermark)
    {
      nodeId, millisecond, sequence, highWatermark := node, 0, 0, watermark;
    }

    static method WithHighWatermark(node: Word, watermark: Option<Word>)
      returns (r: Result<VersionClock, ClockError>)
      ensures r.Err? <==> node > MAX_NODE_ID
      ensures r.Ok? ==> fresh(r.value) && r.value.Valid() && r.value.nodeId == node
      ensures r.Ok? ==> r.value.View() == ClockState(0, 0, if watermark.Some? then watermark.value else 0)
    {
      if node > MAX_NODE_ID {
        return Err(NodeIdTooLarge);
      }
      var clock := new VersionClock(node, if watermark.Some? then watermark.value else 0);
      return Ok(clock);
    }

    method Observe(version: Word)
      requires Valid()
      modifies this
      ensures Valid() && highWatermark >= version && highWatermark >= old(highWatermark)
      ensures highWatermark in {version, old(highWatermark)}
      ensures millisecond == old(millisecond) && sequence == old(sequence)
    {
      if highWatermark < version {
        highWatermark := version;
      }
    }

    method NextAt(unixMillis: Word) returns (r: Result<Word, ClockError>)
      requires Valid()
      modifies this
      ensures Valid()
      ensures NextState(old(View()), nodeId, unixMillis) ==
              if r.Ok? then Ok(View()) else Err(r.error)
      ensures r.Ok? ==> r.value == highWatermark && NodeOf(r.value) == nodeId
      ensures r.Ok? ==> (r.value > old(highWatermark) <==> InRange(old(View()), nodeId, unixMillis))
      ensures r.Err? ==> View() == old(View())
    {
      ghost var before := View();
      if unixMillis < CUSTOM_EPOCH_MILLIS {
        return Err(ClockPredatesEpoch);
      }
      var logical := unixMillis - CUSTOM_EPOCH_MILLIS;
      if logical < millisecond {
        logical := millisecond;
      }
      if logical == millisecond {
        if sequence == MAX_SEQUENCE {
          if logical == MAX_WORD {
            return Err(TimestampOverflow);
          }
          logical := logical + 1;
          sequence := 0;
        } else {
          sequence := sequence + 1;
        }
      } else {
        sequence := 0;
      }
      millisecond := logical;
      assert Advance(before, unixMillis) == Ok(View());
      var value := Pack(logical, nodeId, sequence);
      if value <= highWatermark {
        logical := highWatermark / MILLISECOND_UNIT + 1;
        millisecond := logical;
        sequence := 0;
        value := Pack(logical, nodeId, 0);
      }
      highWatermark := value;
      assert NextState(before, nodeId, unixMillis) == Ok(View());
      NextExceedsWatermark(before, nodeId, unixMillis);
      PackKeepsNode(millisecond, nodeId, sequence);
      return Ok(value);
    }
  }

  /** A version carries the identity of its node, whatever the timestamp overflows to. */
  lemma PackKeepsNode(millisecond: Word, node: Word, sequence: Word)
    requires node <= MAX_NODE_ID && sequence <= MAX_SEQUENCE
    ensures NodeOf(Pack(millisecond, node, sequence)) == node
  {
    var kept := millisecond % (LAST_MILLISECOND + 1);
    Shifted(millisecond);
    assert Pack(millisecond, node, sequence) == (kept * 1024 + node) * NODE_UNIT + sequence;
  }

  lemma FencedSlot(watermark: Word, node: Word)
    requires node <= MAX_NODE_ID
    ensures Pack(watermark / MILLISECOND_UNIT + 1, node, 0) > watermark <==> watermark / MILLISECOND_UNIT < LAST_MILLISECOND
  {
    Shifted(watermark / MILLISECOND_UNIT + 1);
  }

  /** Exactly when an issued version exceeds everything at or below the old watermark. */
  lemma NextExceedsWatermark(s: ClockState, node: Word, unixMillis: Word)
    requires WellFormed(s, node)
    requires NextState(s, node, unixMillis).Ok?
    ensures WellFormed(NextState(s, node, unixMillis).value, node)
    ensures NextState(s, node, unixMillis).value.highWatermark > s.highWatermark
       <==> InRange(s, node, unixMillis)
  {
    var advanced := Advance(s, unixMillis).value;
    var candidate := Pack(advanced.millisecond, node, advanced.sequence);
    if candidate <= s.highWatermark {
      FencedSlot(s.highWatermark, node);
    }
  }

  /** The range limit is real: at the last millisecond the next version falls below the watermark. */
  lemma RangeExhausted()
    ensures var s := ClockState(0, 0, MAX_WORD);
            && NextState(s, 7, CUSTOM_EPOCH_MILLIS).Ok?
            && NextState(s, 7, CUSTOM_EPOCH_MILLIS).value.highWatermark < s.highWatermark
  {
    var s := ClockState(0, 0, MAX_WORD);
    assert Advance(s, CUSTOM_EPOCH_MILLIS) == Ok(ClockState(0, 1, MAX_WORD));
    assert Pack(0, 7, 1) <= MAX_WORD;
    FencedSlot(MAX_WORD, 7);
    NextExceedsWatermark(s, 7, CUSTOM_EPOCH_MILLIS);
    assert Pack(MAX_WORD / MILLISECOND_UNIT + 1, 7, 0) != MAX_WORD;
  }

  // ---- Whole runs of a fleet of clocks

  /** A version a node issued, or learned from another executor. */
  datatype Sighting = Sighting(node: Word, version: Word, issued: bool)

  datatype Event =
    | Issue(node: Word, unixMillis: Word)
    | Learn(node: Word, version: Word)
    | Restart(node: Word, watermark: Word)

  datatype Fleet = Fleet(clocks: map<Word, ClockState>, history: seq<Sighting>)

  predicate Covers(history: seq<Sighting>, node: Word, watermark: Word) {
    forall i :: 0 <= i < |history| && history[i].node == node ==> history[i].version <= watermark
  }

  /**
    What may happen: a clock reading of any value, any learned version, and a
    restart from a persisted watermark that covers what the node has seen.
   */
  predicate Enabled(f: Fleet, e: Event) {
    && e.node <= MAX_NODE_ID
    && match e
       case Issue(node, unixMillis) =>
         node in f.clocks && WellFormed(f.clocks[node], node) && InRange(f.clocks[node], node, unixMillis)
       case Learn(node, _) => node in f.clocks
       case Restart(node, watermark) => Covers(f.history, node, watermark)
  }

  function Apply(f: Fleet, e: Event): Fleet
    requires Enabled(f, e)
  {
    match e
    case Issue(node, unixMillis) =>
      (match NextState(f.clocks[node], node, unixMillis)
       case Err(_) => f
       case Ok(s) => Fleet(f.clocks[node := s], f.history + [Sighting(node, s.highWatermark, true)]))
    case Learn(node, version) =>
      var s := f.clocks[node];
      Fleet(f.clocks[node := if s.highWatermark < version then s.(highWatermark := version) else s],
            f.history + [Sighting(node, version, false)])
    case Restart(node, watermark) =>
      Fleet(f.clocks[node := ClockState(0, 0, watermark)], f.history)
  }

  /** The fleet after a whole run, or None when some event of it was not enabled. */
  function After(events: seq<Event>): Option<Fleet> {
    if events == [] then Some(Fleet(map[], []))
    else
      match After(events[..|events| - 1])
      case None => None
      case Some(f) =>
        var e := events[|events| - 1];
        if Enabled(f, e) then Some(Apply(f, e)) else None
  }

  /** Strictly above everything its own node saw earlier. */
  predicate Monotone(history: seq<Sighting>) {
    forall i, j :: 0 <= i < j < |history| && history[j].issued && history[i].node == history[j].node
             ==> history[i].version < history[j].version
  }

  predicate Stamped(history: seq<Sighting>) {
    forall i :: 0 <= i < |history| && history[i].issued ==> NodeOf(history[i].version) == history[i].node
  }

  ghost predicate FleetInv(f: Fleet) {
    && (forall n :: n in f.clocks ==> WellFormed(f.clocks[n], n) && Covers(f.history, n, f.clocks[n].highWatermark))
    && Monotone(f.history)
    && Stamped(f.history)
  }

  lemma ApplyKeepsInv(f: Fleet, e: Event)
    requires FleetInv(f) && Enabled(f, e)
    ensures FleetInv(Apply(f, e))
  {
    match e
    case Issue(node, unixMillis) =>
      var next := NextState(f.clocks[node], node, unixMillis);
      if next.Ok? {
        NextExceedsWatermark(f.clocks[node], node, unixMillis);
        PackKeepsNode(next.value.millisecond, node, next.value.sequence);
      }
    case _ =>
  }

  lemma {:induction false} RunsKeepInv(events: seq<Event>)
    requires After(events).Some?
    ensures FleetInv(After(events).value)
  {
    if events != [] {
      var before := events[..|events| - 1];
      RunsKeepInv(before);
      ApplyKeepsInv(After(before).value, events[|events| - 1]);
    }
  }

  /**
    In every in-range run, with stalled or backward wall clocks, restarts and
    learned versions anywhere, a version exceeds everything its node issued or
    observed before, and no version is ever issued twice in the whole fleet.
   */
  lemma VersionsNeverRepeat(events: seq<Event>, i: nat, j: nat)
    requires After(events).Some?
    requires i < j < |After(events).value.history| && After(events).value.history[j].issued
    ensures var h := After(events).value.history;
            && (h[i].node == h[j].node ==> h[i].version < h[j].version)
            && (h[i].issued ==> h[i].version != h[j].version)
  {
    RunsKeepInv(events);
  }
}
