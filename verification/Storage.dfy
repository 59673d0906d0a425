/**
 The three Postgres stores over one pool: the `events` table shared by all streams, and one stream's
 cursor row and slot table. Each statement is atomic and may fail before or after it took effect.
 */
module Storage {
  import opened Base
  import opened EventIdentities
  import opened SlotChain
  import opened SlotTables

  /** Keyed by identity: event ids and identities correspond one to one (`EventTableByIdAgrees`). */
  type EventTable = map<EventIdentity, NormalizedEvent>

  datatype WriteSummary = WriteSummary(attempted: nat, inserted: nat, deduplicated: nat, skipped: nat) {
    function Plus(rhs: WriteSummary): WriteSummary {
      WriteSummary(attempted + rhs.attempted, inserted + rhs.inserted, deduplicated + rhs.deduplicated,
                   skipped + rhs.skipped)
    }
  }

  datatype StoreError =
    | SlotOutOfRange(slot: int)
    | PersistedSlotOutOfRange(slot: int)
    | Sql
    | NeverReturns

  datatype FinalizedFrontier = FinalizedFrontier(contiguous: Option<u64>, finalizedHead: Option<u64>)

  // ---------------------------------------------------------------- first insert wins

  predicate EventStorable(e: NormalizedEvent) {
    FitsBigint(e.identity.slot)
  }

  /** `ON CONFLICT (event_id) DO NOTHING`, for one event; an unconvertible event is passed over. */
  function InsertOne(t: EventTable, e: NormalizedEvent): EventTable {
    if EventStorable(e) && e.identity !in t then t[e.identity := e] else t
  }

  function InsertAll(t: EventTable, es: seq<NormalizedEvent>): EventTable {
    if es == [] then t else InsertOne(InsertAll(t, es[..|es| - 1]), es[|es| - 1])
  }

  function StorableCount(es: seq<NormalizedEvent>): nat {
    if es == [] then 0
    else StorableCount(es[..|es| - 1]) + if EventStorable(es[|es| - 1]) then 1 else 0
  }

  /** The first storable event with the given identity. */
  function FirstOf(es: seq<NormalizedEvent>, id: EventIdentity): Option<NormalizedEvent> {
    if es == [] then None
    else if es[0].identity == id && EventStorable(es[0]) then Some(es[0])
    else FirstOf(es[1..], id)
  }

  lemma {:induction false} InsertAllAppend(t: EventTable, a: seq<NormalizedEvent>, b: seq<NormalizedEvent>)
    ensures InsertAll(t, a + b) == InsertAll(InsertAll(t, a), b)
    decreases |b|
  {
    if b == [] {
      assert a + b == a;
    } else {
      assert (a + b)[..|a + b| - 1] == a + b[..|b| - 1];
      InsertAllAppend(t, a, b[..|b| - 1]);
    }
  }

  lemma InsertAllHead(t: EventTable, es: seq<NormalizedEvent>)
    requires es != []
    ensures InsertAll(t, es) == InsertAll(InsertOne(t, es[0]), es[1..])
  {
    assert es == [es[0]] + es[1..];
    InsertAllAppend(t, [es[0]], es[1..]);
    assert InsertAll(t, [es[0]]) == InsertOne(InsertAll(t, []), es[0]);
  }

  /** The table is the old one, completed by the first occurrence of everything new. */
  lemma {:induction false} TableIsFirstWins(t: EventTable, es: seq<NormalizedEvent>, id: EventIdentity)
    ensures id in InsertAll(t, es) <==> id in t || FirstOf(es, id).Some?
    ensures id in InsertAll(t, es) ==> InsertAll(t, es)[id] == if id in t then t[id] else FirstOf(es, id).value
    decreases |es|
  {
    if es != [] {
      InsertAllHead(t, es);
      TableIsFirstWins(InsertOne(t, es[0]), es[1..], id);
    }
  }

  lemma {:induction false} FirstOfAppend(a: seq<NormalizedEvent>, b: seq<NormalizedEvent>, id: EventIdentity)
    ensures FirstOf(a + b, id) == if FirstOf(a, id).Some? then FirstOf(a, id) else FirstOf(b, id)
  {
    if a == [] {
      assert a + b == b;
    } else {
      assert (a + b)[1..] == a[1..] + b;
      FirstOfAppend(a[1..], b, id);
    }
  }

  /** Anything delivered again, wholly or in part, and in front of new deliveries, changes nothing. */
  lemma RedeliveryIsInvisible(t: EventTable, es: seq<NormalizedEvent>, cut: nat)
    requires cut <= |es|
    ensures InsertAll(InsertAll(t, es[..cut]), es) == InsertAll(t, es)
    ensures InsertAll(InsertAll(t, es), es[..cut]) == InsertAll(t, es)
  {
    var a, b := InsertAll(t, es[..cut]), InsertAll(t, es);
    assert es == es[..cut] + es[cut..];
    forall id ensures id in InsertAll(a, es) <==> id in b
              ensures id in InsertAll(b, es[..cut]) <==> id in b
              ensures id in b ==> InsertAll(a, es)[id] == b[id] && InsertAll(b, es[..cut])[id] == b[id]
    {
      TableIsFirstWins(t, es[..cut], id);
      TableIsFirstWins(t, es, id);
      TableIsFirstWins(a, es, id);
      TableIsFirstWins(b, es[..cut], id);
      FirstOfAppend(es[..cut], es[cut..], id);
    }
  }

  lemma {:induction false} TableGrows(t: EventTable, es: seq<NormalizedEvent>)
    ensures |t| <= |InsertAll(t, es)| <= |t| + StorableCount(es) && StorableCount(es) <= |es|
    ensures forall id | id in t :: id in InsertAll(t, es) && InsertAll(t, es)[id] == t[id]
  {
    if es != [] { TableGrows(t, es[..|es| - 1]); }
  }

  lemma {:induction false} DeliveredIsThere(t: EventTable, es: seq<NormalizedEvent>)
    ensures forall e | e in es && EventStorable(e) :: e.identity in InsertAll(t, es)
  {
    if es != [] {
      DeliveredIsThere(t, es[..|es| - 1]);
      assert es == es[..|es| - 1] + [es[|es| - 1]];
    }
  }

  /** Rows inserted by a schedule of batches, one batch after the other. */
  function InsertedBy(t: EventTable, batches: seq<seq<NormalizedEvent>>): int
    decreases |batches|
  {
    if batches == [] then 0
    else
      var t1 := InsertAll(t, batches[0]);
      (|t1| - |t|) + InsertedBy(t1, batches[1..])
  }

  /** For every schedule the inserted counts add up to the growth of the first-wins table of all deliveries. */
  lemma {:induction false} ScheduleInsertsGrowth(t: EventTable, batches: seq<seq<NormalizedEvent>>)
    ensures |t| + InsertedBy(t, batches) == |InsertAll(t, Flatten(batches))|
    decreases |batches|
  {
    if batches != [] {
      InsertAllAppend(t, batches[0], Flatten(batches[1..]));
      ScheduleInsertsGrowth(InsertAll(t, batches[0]), batches[1..]);
    }
  }

  // ---------------------------------------------------------------- the same table, keyed by event id

  function InsertAllById(digest: string -> string, es: seq<NormalizedEvent>): map<string, NormalizedEvent> {
    if es == [] then map[]
    else
      var t, e := InsertAllById(digest, es[..|es| - 1]), es[|es| - 1];
      var id := EventId(digest, e.identity);
      if EventStorable(e) && id !in t then t[id := e] else t
  }

  /** With a collision-free digest, deduplicating by event id is deduplicating by identity. */
  lemma {:induction false} EventTableByIdAgrees(digest: string -> string, es: seq<NormalizedEvent>, id: EventIdentity)
    requires Injective(digest)
    ensures EventId(digest, id) in InsertAllById(digest, es) <==> id in InsertAll(map[], es)
    ensures id in InsertAll(map[], es) ==> InsertAllById(digest, es)[EventId(digest, id)] == InsertAll(map[], es)[id]
  {
    if es != [] {
      var e := es[|es| - 1];
      EventTableByIdAgrees(digest, es[..|es| - 1], id);
      EventTableByIdAgrees(digest, es[..|es| - 1], e.identity);
      EventIdInjective(digest, id, e.identity);
    }
  }

  // ---------------------------------------------------------------- cursor

  function CursorUpsert(c: Option<CursorRow>, slot: int): CursorRow {
    match c
    case None => CursorRow(slot, None, None)
    case Some(row) => row.(persisted := Max(row.persisted, slot))
  }

  function DecodeStored(slot: Option<int>): Result<Option<u64>, StoreError> {
    if slot.None? then Ok(None)
    else if 0 <= slot.value <= MAX_U64 then Ok(Some(slot.value))
    else Err(PersistedSlotOutOfRange(slot.value))
  }

  function DecodeFrontier(row: CursorRow): Result<FinalizedFrontier, StoreError> {
    var contiguous, head := DecodeStored(row.contiguous), DecodeStored(row.finalizedHead);
    if contiguous.Err? then Err(contiguous.error)
    else if head.Err? then Err(head.error)
    else Ok(FinalizedFrontier(contiguous.value, head.value))
  }

  predicate Unreadable(slot: Option<int>) {
    slot.Some? && !(0 <= slot.value <= MAX_U64)
  }

  /** The first of the two slots that cannot be read back is named. */
  ghost predicate FrontierError(row: CursorRow, error: StoreError) {
    if Unreadable(row.contiguous) then error == PersistedSlotOutOfRange(row.contiguous.value)
    else Unreadable(row.finalizedHead) && error == PersistedSlotOutOfRange(row.finalizedHead.value)
  }

  // ---------------------------------------------------------------- the stores

  /** How one statement ends: done, refused before any effect, or done with the reply lost. */
  datatype Fate = Done | Refused | ReplyLost

  method GreatestIn(s: set<int>) returns (m: int)
    requires s != {}
    ensures m == MaxOf(s)
  {
    ghost var some := Pick(s);
    m :| m in s;
    var rest := s - {m};
    while rest != {}
      invariant rest <= s && m in s && forall x | x in s - rest :: x <= m
    {
      ghost var before := s - rest;
      some := Pick(rest);
      var x: int :| x in rest;
      rest := rest - {x};
      assert s - rest == before + {x};
      if x > m { m := x; }
    }
    assert s - rest == s;
  }

  method LeastIn(s: set<int>) returns (m: int)
    requires s != {}
    ensures m == MinOf(s)
  {
    var negated := set x | x in s :: -x;
    assert -Pick(s) in negated;
    var n := GreatestIn(negated);
    m := -n;
    assert -MinOf(s) in negated;
  }

  /** What is durable. */
  datatype Db = Db(events: EventTable, cursor: Option<CursorRow>, slots: SlotTable)

  class Database {
    var events: EventTable
    var cursor: Option<CursorRow>
    var slots: SlotTable

    ghost function State(): Db
      reads this
    {
      Db(events, cursor, slots)
    }

    method WriteBatch(batch: seq<NormalizedEvent>) returns (r: Result<WriteSummary, StoreError>)
      modifies this`events
      ensures events == old(events) || events == InsertAll(old(events), batch)
      ensures r.Ok? ==> events == InsertAll(old(events), batch)
      ensures r.Ok? ==> r.value.skipped == |batch| - StorableCount(batch)
      ensures r.Ok? ==> r.value.inserted == |events| - |old(events)|
      ensures r.Ok? && StorableCount(batch) > 0 ==>
                r.value.attempted == StorableCount(batch) == r.value.inserted + r.value.deduplicated
      ensures r.Ok? && StorableCount(batch) == 0 ==> r.value.attempted == |batch| && r.value.deduplicated == 0
    {
      if batch == [] {
        return Ok(WriteSummary(0, 0, 0, 0));
      }
      var rows: seq<NormalizedEvent>, skipped: nat := [], 0;
      for i := 0 to |batch|
        invariant skipped == i - StorableCount(batch[..i]) && |rows| == StorableCount(batch[..i])
        invariant forall e | e in rows :: EventStorable(e)
        invariant forall t :: InsertAll(t, rows) == InsertAll(t, batch[..i])
      {
        assert batch[..i + 1][..i] == batch[..i];
        if EventStorable(batch[i]) {
          assert (rows + [batch[i]])[..|rows|] == rows;
          rows := rows + [batch[i]];
        } else {
          skipped := skipped + 1;
        }
      }
      assert batch[..|batch|] == batch;
      if rows == [] {
        assert InsertAll(events, rows) == events;
        return Ok(WriteSummary(|batch|, 0, 0, skipped));
      }
      var fate: Fate := *;
      if fate.Refused? { return Err(Sql); }
      var inserted := ExecuteInsert(rows);
      if fate.ReplyLost? { return Err(Sql); }
      return Ok(WriteSummary(|rows|, inserted, |rows| - inserted, skipped));
    }

    /** The one multi-row `INSERT`; returns the number of rows affected. */
    method ExecuteInsert(rows: seq<NormalizedEvent>) returns (affected: nat)
      requires forall e | e in rows :: EventStorable(e)
      modifies this`events
      ensures events == InsertAll(old(events), rows)
      ensures affected == |events| - |old(events)| && affected <= |rows|
    {
      affected := 0;
      for i := 0 to |rows|
        invariant events == InsertAll(old(events), rows[..i])
        invariant affected == |events| - |old(events)| && affected <= i
      {
        assert rows[..i + 1][..i] == rows[..i];
        if rows[i].identity !in events {
          events := events[rows[i].identity := rows[i]];
          affected := affected + 1;
        }
      }
      assert rows[..|rows|] == rows;
    }

    method GetCursor() returns (r: Result<Option<u64>, StoreError>)
      ensures r.Ok? ==> if cursor.Some? then r.value == Some(cursor.value.persisted) else r.value.None?
      ensures r.Err? ==>
                || r.error == Sql
                || (cursor.Some? && r.error == PersistedSlotOutOfRange(cursor.value.persisted)
                    && !(0 <= cursor.value.persisted <= MAX_U64))
    {
      var fate: Fate := *;
      if !fate.Done? { return Err(Sql); }
      r := DecodeStored(if cursor.Some? then Some(cursor.value.persisted) else None);
    }

    method UpdateAfterBatch(slot: u64) returns (r: Result<(), StoreError>)
      modifies this`cursor
      ensures cursor == old(cursor) || (slot <= MAX_I64 && cursor == Some(CursorUpsert(old(cursor), slot)))
      ensures r.Ok? ==> slot <= MAX_I64 && cursor == Some(CursorUpsert(old(cursor), slot))
      ensures r.Err? ==> r.error == if slot > MAX_I64 then SlotOutOfRange(slot) else Sql
    {
      if !FitsBigint(slot) { return Err(SlotOutOfRange(slot)); }
      var fate: Fate := *;
      if fate.Refused? { return Err(Sql); }
      cursor := Some(match cursor
                     case None => CursorRow(slot, None, None)
                     case Some(row) => row.(persisted := if slot > row.persisted then slot else row.persisted));
      return if fate.Done? then Ok(()) else Err(Sql);
    }

    method RecordSlotStates(updates: seq<SlotStateUpdate>) returns (r: Result<(), StoreError>)
      modifies this`slots
      ensures slots == old(slots) || (Storable(Merge(updates)) && slots == UpsertAll(old(slots), updates))
      ensures r.Ok? ==> Storable(Merge(updates)) && slots == UpsertAll(old(slots), updates)
      ensures r.Err? ==> updates != [] && (r.error == Sql || (r.error.SlotOutOfRange? && r.error.slot > MAX_I64))
      ensures !Storable(Merge(updates)) ==> r.Err? && r.error.SlotOutOfRange?
    {
      if updates == [] { return Ok(()); }

      var merged: map<u64, SlotStateUpdate> := map[];
      for i := 0 to |updates|
        invariant merged == Merge(updates[..i]) && slots == old(slots)
      {
        var update := updates[i];
        assert updates[..i + 1][..i] == updates[..i];
        if update.slot in merged {
          var existing := merged[update.slot];
          existing := existing.(finalized := existing.finalized || update.finalized,
                                dead := existing.dead || update.dead);
          if update.parentSlot.Some? {
            existing := existing.(parentSlot := update.parentSlot);
          }
          merged := merged[update.slot := existing];
        } else {
          merged := merged[update.slot := update];
        }
      }
      assert updates[..|updates|] == updates;

      var rest := merged.Keys;
      while rest != {}
        invariant rest <= merged.Keys && slots == old(slots)
        invariant forall s | s in merged.Keys - rest :: RowStorable(merged[s])
      {
        ghost var some := Pick(rest);
        var s :| s in rest;
        rest := rest - {s};
        MergeKeepsSlot(updates, s);
        if !FitsBigint(merged[s].slot) { return Err(SlotOutOfRange(merged[s].slot)); }
        if merged[s].parentSlot.Some? && !FitsBigint(merged[s].parentSlot.value) {
          return Err(SlotOutOfRange(merged[s].parentSlot.value));
        }
      }

      assert merged.Keys - rest == merged.Keys;
      assert Storable(merged);
      var fate: Fate := *;
      if fate.Refused? { return Err(Sql); }
      MergedUpsertIsFold(slots, updates);
      slots := UpsertRows(slots, merged);
      return if fate.Done? then Ok(()) else Err(Sql);
    }

    method GetFinalizedFrontier() returns (r: Result<FinalizedFrontier, StoreError>)
      ensures r.Ok? ==> r.value.contiguous == Stored(cursor)
      ensures r.Ok? ==> r.value.finalizedHead == if cursor.Some? then cursor.value.finalizedHead else None
      ensures r.Err? ==> r.error == Sql || (cursor.Some? && FrontierError(cursor.value, r.error))
    {
      var fate: Fate := *;
      if !fate.Done? { return Err(Sql); }
      if cursor.None? { return Ok(FinalizedFrontier(None, None)); }
      r := DecodeFrontier(cursor.value);
    }

    /** The recursive query, then the monotone upsert. */
    method AdvanceContiguousFinalized() returns (r: Result<FinalizedFrontier, StoreError>)
      modifies this`cursor
      ensures || cursor == old(cursor)
              || (QueryEnds(Stored(old(cursor)), slots) && cursor == Some(Advanced(old(cursor), slots)))
      ensures r.Ok? ==> QueryEnds(Stored(old(cursor)), slots) && cursor == Some(Advanced(old(cursor), slots))
      ensures cursor.Some? ==> cursor.value.persisted == if old(cursor).Some? then old(cursor).value.persisted else 0
      ensures r.Ok? ==> r.value.contiguous == Stored(cursor) && r.value.finalizedHead == cursor.value.finalizedHead
      ensures r.Err? && QueryEnds(Stored(old(cursor)), slots) ==>
                r.error == Sql || (cursor.Some? && FrontierError(cursor.value, r.error))
      ensures !QueryEnds(Stored(old(cursor)), slots) ==> r == Err(NeverReturns)
    {
      var parents := FinalizedParents(slots);
      var lowest: Option<int>, head: Option<int> := None, None;
      if parents.Keys != {} {
        var least := LeastIn(parents.Keys);
        var greatest := GreatestIn(parents.Keys);
        lowest, head := Some(least), Some(greatest);
      }
      var seed := Coalesce(Stored(cursor), lowest);
      var watermark: Option<int> := None;
      if seed.Some? {
        var chain := RunChainQuery(parents, seed.value);
        if chain.None? { return Err(NeverReturns); }
        assert ChainMax(parents, seed.value) in chain.value;
        var top := GreatestIn(chain.value);
        watermark := Some(top);
      }
      var fate: Fate := *;
      if fate.Refused? { return Err(Sql); }
      cursor := Some(match cursor
                     case None => CursorRow(0, watermark, head)
                     case Some(row) => row.(contiguous := Greatest(row.contiguous, watermark),
                                            finalizedHead := Greatest(row.finalizedHead, head)));
      if fate.ReplyLost? { return Err(Sql); }
      r := DecodeFrontier(cursor.value);
    }
  }
}
