/**
 Batching, the four durable effects of one batch, and the receive loop that drives them.
 */
module Pipeline {
  import opened Base
  import opened EventIdentities
  import opened SlotTables
  import opened Storage

  /** `recordsSlots` tells the Postgres slot-state store from the no-op store that replay mode passes in. */
  datatype PipelineConfig = PipelineConfig(
    batchSize: nat,
    resumeAfterSlot: Option<u64>,
    advanceFinalizedWatermark: bool,
    useSlotResume: bool,
    recordsSlots: bool)

  datatype PipelineSummary = PipelineSummary(
    eventsSeen: nat,
    eventsSkipped: nat,
    batchesWritten: nat,
    writeSummary: WriteSummary,
    lastPersistedSlot: Option<u64>,
    lastContiguousFinalizedSlot: Option<u64>,
    lastFinalizedSlot: Option<u64>)

  datatype PipelineError = Write(error: StoreError) | Cursor(error: StoreError) | SlotState(error: StoreError)

  // ---------------------------------------------------------------- events

  /** The event reports that slot `s` was finalized. */
  ghost predicate Finalizes(e: NormalizedEvent, s: int) {
    e.identity.Slot? && e.identity.slot == s && e.identity.status == Finalized
  }

  /** The event reports that slot `s` is dead. */
  ghost predicate Kills(e: NormalizedEvent, s: int) {
    e.identity.Slot? && e.identity.slot == s && e.identity.status == Dead
  }

  function SlotStateFromEvent(e: NormalizedEvent): Option<SlotStateUpdate> {
    match e.identity
    case Slot(_, slot, Finalized) => Some(SlotStateUpdate(slot, e.payload.parent, true, false))
    case Slot(_, slot, Dead) => Some(SlotStateUpdate(slot, e.payload.parent, false, true))
    case _ => None
  }

  function SlotStates(batch: seq<NormalizedEvent>): seq<SlotStateUpdate> {
    if batch == [] then []
    else
      var u := SlotStateFromEvent(batch[|batch| - 1]);
      SlotStates(batch[..|batch| - 1]) + if u.Some? then [u.value] else []
  }

  function MaxSlot(batch: seq<NormalizedEvent>): u64
    requires batch != []
  {
    var last := batch[|batch| - 1].identity.slot;
    if |batch| == 1 then last
    else if MaxSlot(batch[..|batch| - 1]) >= last then MaxSlot(batch[..|batch| - 1]) else last
  }

  predicate ShouldSkip(e: NormalizedEvent, cfg: PipelineConfig) {
    cfg.useSlotResume && cfg.resumeAfterSlot.Some? && e.identity.slot <= cfg.resumeAfterSlot.value
  }

  function Accepted(events: seq<NormalizedEvent>, cfg: PipelineConfig): seq<NormalizedEvent> {
    if events == [] then []
    else
      var last := events[|events| - 1];
      Accepted(events[..|events| - 1], cfg) + if ShouldSkip(last, cfg) then [] else [last]
  }

  lemma {:induction false} AcceptedAppend(a: seq<NormalizedEvent>, b: seq<NormalizedEvent>, cfg: PipelineConfig)
    ensures Accepted(a + b, cfg) == Accepted(a, cfg) + Accepted(b, cfg)
    decreases |b|
  {
    if b == [] {
      assert a + b == a;
    } else {
      assert (a + b)[..|a + b| - 1] == a + b[..|b| - 1];
      AcceptedAppend(a, b[..|b| - 1], cfg);
    }
  }

  lemma {:induction false} NothingSkipped(events: seq<NormalizedEvent>, cfg: PipelineConfig)
    requires !cfg.useSlotResume || cfg.resumeAfterSlot.None?
    ensures Accepted(events, cfg) == events
  {
    if events != [] { NothingSkipped(events[..|events| - 1], cfg); }
  }

  lemma {:induction false} SlotStatesAppend(a: seq<NormalizedEvent>, b: seq<NormalizedEvent>)
    ensures SlotStates(a + b) == SlotStates(a) + SlotStates(b)
    decreases |b|
  {
    if b == [] {
      assert a + b == a;
    } else {
      assert (a + b)[..|a + b| - 1] == a + b[..|b| - 1];
      SlotStatesAppend(a, b[..|b| - 1]);
    }
  }

  /** The event is a finalized or dead report, and `u` says just what it says. */
  ghost predicate Tells(e: NormalizedEvent, u: SlotStateUpdate) {
    && (Finalizes(e, u.slot) || Kills(e, u.slot))
    && u.finalized == Finalizes(e, u.slot) && u.dead == Kills(e, u.slot) && u.parentSlot == e.payload.parent
  }

  /** The updates of a batch are what its finalized and dead reports tell. */
  lemma {:induction false} SlotStatesAreReports(batch: seq<NormalizedEvent>)
    ensures forall u :: u in SlotStates(batch) <==> exists e :: e in batch && Tells(e, u)
  {
    if batch != [] {
      var front, last := batch[..|batch| - 1], batch[|batch| - 1];
      assert batch == front + [last];
      SlotStatesAreReports(front);
      forall u ensures u in SlotStates(batch) <==> exists e :: e in batch && Tells(e, u) {
        TellsIff(last, u);
        if u in SlotStates(front) {
          var e :| e in front && Tells(e, u);
          assert e in batch;
        } else {
          assert last in batch;
        }
      }
    }
  }

  lemma TellsIff(e: NormalizedEvent, u: SlotStateUpdate)
    ensures Tells(e, u) <==> SlotStateFromEvent(e) == Some(u)
  {
  }

  /** A batch has a finalized update exactly if one of its events reports a finalized slot. */
  lemma {:induction false} FinalizedReported(batch: seq<NormalizedEvent>)
    ensures AnyFinalized(SlotStates(batch)) <==> exists e :: e in batch && Finalizes(e, e.identity.slot)
  {
    if batch != [] {
      var front, last := batch[..|batch| - 1], batch[|batch| - 1];
      assert batch == front + [last];
      FinalizedReported(front);
      var u := SlotStateFromEvent(last);
      assert u.Some? && u.value.finalized <==> Finalizes(last, last.identity.slot);
      assert forall v :: v in SlotStates(batch) <==> v in SlotStates(front) || (u.Some? && v == u.value);
    }
  }

  lemma {:induction false} MaxSlotBounds(batch: seq<NormalizedEvent>)
    requires batch != []
    ensures forall e | e in batch :: e.identity.slot <= MaxSlot(batch)
    ensures exists e :: e in batch && e.identity.slot == MaxSlot(batch)
  {
    var front, last := batch[..|batch| - 1], batch[|batch| - 1];
    assert batch == front + [last];
    assert last in batch;
    if front != [] {
      MaxSlotBounds(front);
      var e :| e in front && e.identity.slot == MaxSlot(front);
      assert e in batch;
    }
  }

  lemma {:induction false} AllStorable(batch: seq<NormalizedEvent>)
    requires forall e | e in batch :: EventStorable(e)
    ensures StorableCount(batch) == |batch|
  {
    if batch != [] {
      assert batch[|batch| - 1] in batch;
      AllStorable(batch[..|batch| - 1]);
    }
  }

  // ---------------------------------------------------------------- chunks

  /** Pieces of exactly `n` elements and, if anything is left, one shorter piece. */
  function Chunks<T>(s: seq<T>, n: nat): seq<seq<T>>
    requires n > 0
    decreases |s|
  {
    if s == [] then [] else if |s| <= n then [s] else [s[..n]] + Chunks(s[n..], n)
  }

  lemma {:induction false} ChunksFlatten<T>(s: seq<T>, n: nat)
    requires n > 0
    ensures Flatten(Chunks(s, n)) == s
    decreases |s|
  {
    if |s| > n {
      ChunksFlatten(s[n..], n);
      var tail := Chunks(s[n..], n);
      assert ([s[..n]] + tail)[1..] == tail;
      assert s == s[..n] + s[n..];
    } else if s != [] {
      FlattenOne(s);
    }
  }

  /** A full piece in front is the first chunk. */
  lemma ChunksCons<T>(head: seq<T>, tail: seq<T>, n: nat)
    requires n > 0 && |head| == n
    ensures Chunks(head + tail, n) == [head] + Chunks(tail, n)
  {
    var s := head + tail;
    assert s[..n] == head && s[n..] == tail;
    if tail == [] {
      assert s == head;
      assert [head] + Chunks<T>([], n) == [head];
    }
  }

  /** Full pieces in front of anything else are the first chunks. */
  lemma {:induction false} ChunksSplit<T>(full: seq<seq<T>>, rest: seq<T>, n: nat)
    requires n > 0 && forall i | 0 <= i < |full| :: |full[i]| == n
    ensures Chunks(Flatten(full) + rest, n) == full + Chunks(rest, n)
    decreases |full|
  {
    if full == [] {
      assert Flatten(full) + rest == rest;
      assert full + Chunks(rest, n) == Chunks(rest, n);
    } else {
      var head, others := full[0], full[1..];
      ChunksSplit(others, rest, n);
      ChunksCons(head, Flatten(others) + rest, n);
      Associates(head, Flatten(others), rest);
      Associates([head], others, Chunks(rest, n));
      assert full == [head] + others;
    }
  }

  lemma Associates<T>(a: seq<T>, b: seq<T>, c: seq<T>)
    ensures a + b + c == a + (b + c)
  {
  }

  // ---------------------------------------------------------------- the four effects of one batch

  /** Effect `i` of a batch: events, cursor, slot states, watermark. `None` where it cannot take place. */
  ghost function Effect(db: Db, batch: seq<NormalizedEvent>, cfg: PipelineConfig, i: nat): Option<Db>
    requires i < 4
  {
    var states := SlotStates(batch);
    if i == 0 then Some(db.(events := InsertAll(db.events, batch)))
    else if i == 1 then
      if batch == [] then Some(db)
      else if FitsBigint(MaxSlot(batch)) then Some(db.(cursor := Some(CursorUpsert(db.cursor, MaxSlot(batch)))))
      else None
    else if !cfg.recordsSlots || states == [] then Some(db)
    else if i == 2 then
      if Storable(Merge(states)) then Some(db.(slots := UpsertAll(db.slots, states))) else None
    else if !cfg.advanceFinalizedWatermark || !AnyFinalized(states) then Some(db)
    else if QueryEnds(Stored(db.cursor), db.slots) then Some(db.(cursor := Some(Advanced(db.cursor, db.slots))))
    else None
  }

  /** The state a crash leaves behind after the first `k` effects. */
  ghost function After(db: Db, batch: seq<NormalizedEvent>, cfg: PipelineConfig, k: nat): Option<Db>
    requires k <= 4
  {
    if k == 0 then Some(db)
    else
      var before := After(db, batch, cfg, k - 1);
      if before.None? then None else Effect(before.value, batch, cfg, k - 1)
  }

  /** Whole batches, one after the other; `None` if one of them cannot be completed. */
  ghost function Exec(db: Db, batches: seq<seq<NormalizedEvent>>, cfg: PipelineConfig): Option<Db> {
    if batches == [] then Some(db)
    else
      var before := Exec(db, batches[..|batches| - 1], cfg);
      if before.None? then None else After(before.value, batches[|batches| - 1], cfg, 4)
  }

  /** The state after `j` whole batches and `k` effects of the next one. */
  ghost function Cut(db: Db, batches: seq<seq<NormalizedEvent>>, cfg: PipelineConfig, j: nat, k: nat): Option<Db>
    requires j < |batches| && k <= 4
  {
    var before := Exec(db, batches[..j], cfg);
    if before.None? then None else After(before.value, batches[j], cfg, k)
  }

  // ---------------------------------------------------------------- batcher

  class Batcher {
    const capacity: nat
    var pending: seq<NormalizedEvent>

    constructor (capacity: nat)
      requires capacity > 0
      ensures this.capacity == capacity && pending == []
    {
      this.capacity := capacity;
      pending := [];
    }

    /** Hands the batch over, and starts an empty one, once `capacity` events are pending. */
    method Push(e: NormalizedEvent) returns (full: Option<seq<NormalizedEvent>>)
      modifies this
      ensures |old(pending)| + 1 >= capacity ==> full == Some(old(pending) + [e]) && pending == []
      ensures |old(pending)| + 1 < capacity ==> full == None && pending == old(pending) + [e]
    {
      pending := pending + [e];
      if |pending| >= capacity {
        full := Some(pending);
        pending := [];
      } else {
        full := None;
      }
    }

    method Flush() returns (rest: Option<seq<NormalizedEvent>>)
      modifies this
      ensures pending == []
      ensures rest == if old(pending) == [] then None else Some(old(pending))
    {
      if pending == [] {
        rest := None;
      } else {
        rest := Some(pending);
        pending := [];
      }
    }
  }

  // ---------------------------------------------------------------- one batch

  function PersistedOf(c: Option<CursorRow>): Option<int> {
    if c.Some? then Some(c.value.persisted) else None
  }

  /** `db` is `start` after the first `k` effects of the batch, for some `k`. */
  ghost predicate SomePrefix(start: Db, batch: seq<NormalizedEvent>, cfg: PipelineConfig, db: Db) {
    exists k :: 0 <= k <= 4 && After(start, batch, cfg, k) == Some(db)
  }

  method HighestSlot(batch: seq<NormalizedEvent>) returns (slot: u64)
    requires batch != []
    ensures slot == MaxSlot(batch)
  {
    slot := batch[0].identity.slot;
    assert batch[..1] == [batch[0]];
    for i := 1 to |batch|
      invariant slot == MaxSlot(batch[..i])
    {
      assert batch[..i + 1][..i] == batch[..i];
      if batch[i].identity.slot > slot { slot := batch[i].identity.slot; }
    }
    assert batch[..|batch|] == batch;
  }

  method CollectSlotStates(batch: seq<NormalizedEvent>) returns (states: seq<SlotStateUpdate>, anyFinalized: bool)
    ensures states == SlotStates(batch)
    ensures forall u :: u in states <==> exists e :: e in batch && Tells(e, u)
    ensures anyFinalized <==> AnyFinalized(states)
  {
    SlotStatesAreReports(batch);
    states, anyFinalized := [], false;
    for i := 0 to |batch|
      invariant states == SlotStates(batch[..i])
      invariant anyFinalized <==> AnyFinalized(states)
    {
      assert batch[..i + 1][..i] == batch[..i];
      var u := SlotStateFromEvent(batch[i]);
      if u.Some? {
        assert forall v :: v in states + [u.value] <==> v in states || v == u.value;
        states := states + [u.value];
        anyFinalized := anyFinalized || u.value.finalized;
      }
    }
    assert batch[..|batch|] == batch;
  }

  lemma OneMore(start: Db, batch: seq<NormalizedEvent>, cfg: PipelineConfig, k: nat, d: Db, d': Db)
    requires k < 4 && After(start, batch, cfg, k) == Some(d) && Effect(d, batch, cfg, k) == Some(d')
    ensures After(start, batch, cfg, k + 1) == Some(d')
  {
  }

  ghost predicate Advances(cfg: PipelineConfig, batch: seq<NormalizedEvent>) {
    cfg.advanceFinalizedWatermark && AnyFinalized(SlotStates(batch))
  }

  function HeadOf(c: Option<CursorRow>): Option<int> {
    if c.Some? then c.value.finalizedHead else None
  }

  /** A batch that advances shows the stored frontier (the no-op store has none); others change nothing. */
  ghost predicate FrontierShown(cfg: PipelineConfig, batch: seq<NormalizedEvent>, before: PipelineSummary,
                                after: PipelineSummary, stored: Option<CursorRow>)
  {
    if !Advances(cfg, batch) then
      after.lastContiguousFinalizedSlot == before.lastContiguousFinalizedSlot
      && after.lastFinalizedSlot == before.lastFinalizedSlot
    else if cfg.recordsSlots then
      after.lastContiguousFinalizedSlot == Stored(stored) && after.lastFinalizedSlot == HeadOf(stored)
    else after.lastContiguousFinalizedSlot == None && after.lastFinalizedSlot == None
  }

  /** None, one or both of the last two effects have taken place; both, if they are complete. */
  ghost predicate LastTwo(before: Db, batch: seq<NormalizedEvent>, cfg: PipelineConfig, d: Db, complete: bool) {
    var recorded := Effect(before, batch, cfg, 2);
    if complete then recorded.Some? && Effect(recorded.value, batch, cfg, 3) == Some(d)
    else d == before || recorded == Some(d) || (recorded.Some? && Effect(recorded.value, batch, cfg, 3) == Some(d))
  }

  /** The last two effects: slot rows, then, only if some slot became finalized, the watermark. */
  method RecordAndAdvance(db: Database, cfg: PipelineConfig, batch: seq<NormalizedEvent>, summary: PipelineSummary)
    returns (r: Result<PipelineSummary, PipelineError>)
    modifies db
    ensures db.events == old(db.events)
    ensures LastTwo(old(db.State()), batch, cfg, db.State(), r.Ok?)
    ensures r.Ok? ==> r.value == summary.(lastContiguousFinalizedSlot := r.value.lastContiguousFinalizedSlot,
                                          lastFinalizedSlot := r.value.lastFinalizedSlot)
    ensures r.Ok? ==> FrontierShown(cfg, batch, summary, r.value, db.cursor)
  {
    ghost var before := db.State();
    var states, anyFinalized := CollectSlotStates(batch);
    if states == [] { return Ok(summary); }
    if !cfg.recordsSlots {
      return Ok(if cfg.advanceFinalizedWatermark && anyFinalized
                then summary.(lastContiguousFinalizedSlot := None, lastFinalizedSlot := None) else summary);
    }
    var recorded := db.RecordSlotStates(states);
    ghost var kept := db.State();
    if recorded.Err? { return Err(SlotState(recorded.error)); }
    assert Effect(before, batch, cfg, 2) == Some(kept);
    if !(cfg.advanceFinalizedWatermark && anyFinalized) { return Ok(summary); }
    var frontier := db.AdvanceContiguousFinalized();
    if frontier.Err? { return Err(SlotState(frontier.error)); }
    assert Effect(kept, batch, cfg, 3) == Some(db.State());
    return Ok(summary.(lastContiguousFinalizedSlot := frontier.value.contiguous,
                       lastFinalizedSlot := frontier.value.finalizedHead));
  }

  /** Whatever fails, the database is left after some prefix of the four effects; on success after all four. */
  method WriteBatch(db: Database, cfg: PipelineConfig, batch: seq<NormalizedEvent>, summary: PipelineSummary)
    returns (r: Result<PipelineSummary, PipelineError>)
    requires batch != []
    modifies db
    ensures SomePrefix(old(db.State()), batch, cfg, db.State())
    ensures r.Ok? ==> After(old(db.State()), batch, cfg, 4) == Some(db.State())
    ensures r.Ok? ==> r.value.eventsSeen == summary.eventsSeen && r.value.eventsSkipped == summary.eventsSkipped
    ensures r.Ok? ==> r.value.batchesWritten == summary.batchesWritten + 1
    ensures r.Ok? ==> AddedUp(summary.writeSummary, r.value.writeSummary, |batch|,
                              |db.State().events| - |old(db.State()).events|)
    ensures r.Ok? ==> r.value.lastPersistedSlot == Greatest(summary.lastPersistedSlot, Some(MaxSlot(batch)))
    ensures r.Ok? ==> FrontierShown(cfg, batch, summary, r.value, db.cursor)
  {
    ghost var zero := db.State();
    var stored := StoreAndMove(db, cfg, batch, summary);
    ghost var two := db.State();
    FirstStages(zero, batch, cfg, two, stored.Ok?);
    if stored.Err? { return Err(stored.error); }
    var (moved, written) := stored.value;

    var advanced := RecordAndAdvance(db, cfg, batch, moved);
    LaterStages(zero, batch, cfg, two, db.State(), advanced.Ok?);
    if advanced.Err? { return Err(advanced.error); }
    var next := advanced.value;
    return Ok(next.(batchesWritten := next.batchesWritten + 1, writeSummary := next.writeSummary.Plus(written)));
  }

  /** None, one or both of the first two effects have taken place; both, if they are complete. */
  ghost predicate FirstTwo(zero: Db, batch: seq<NormalizedEvent>, cfg: PipelineConfig, d: Db, complete: bool) {
    var one := zero.(events := InsertAll(zero.events, batch));
    if complete then Effect(one, batch, cfg, 1) == Some(d)
    else d == zero || d == one || Effect(one, batch, cfg, 1) == Some(d)
  }

  /** The first two effects: events, then cursor. An event too large for a row also fails the cursor. */
  method StoreAndMove(db: Database, cfg: PipelineConfig, batch: seq<NormalizedEvent>, summary: PipelineSummary)
    returns (r: Result<(PipelineSummary, WriteSummary), PipelineError>)
    requires batch != []
    modifies db
    ensures FirstTwo(old(db.State()), batch, cfg, db.State(), r.Ok?)
    ensures r.Ok? ==> r.value.0
                        == summary.(lastPersistedSlot := Greatest(summary.lastPersistedSlot, Some(MaxSlot(batch))))
    ensures r.Ok? ==> AddedUp(WriteSummary(0, 0, 0, 0), r.value.1, |batch|,
                              |db.State().events| - |old(db.State()).events|)
  {
    var lastSlot := HighestSlot(batch);
    var written := db.WriteBatch(batch);
    if written.Err? { return Err(Write(written.error)); }
    var next := summary.(eventsSkipped := summary.eventsSkipped + written.value.skipped);

    var updated := db.UpdateAfterBatch(lastSlot);
    if updated.Err? { return Err(Cursor(updated.error)); }
    next := next.(lastPersistedSlot := match next.lastPersistedSlot
                                       case None => Some(lastSlot)
                                       case Some(current) => Some(if current >= lastSlot then current else lastSlot));
    MaxSlotBounds(batch);
    AllStorable(batch);
    return Ok((next, written.value));
  }

  lemma FirstStages(zero: Db, batch: seq<NormalizedEvent>, cfg: PipelineConfig, d: Db, complete: bool)
    requires FirstTwo(zero, batch, cfg, d, complete)
    ensures SomePrefix(zero, batch, cfg, d)
    ensures complete ==> After(zero, batch, cfg, 2) == Some(d)
  {
    assert After(zero, batch, cfg, 0) == Some(zero);
    var one := zero.(events := InsertAll(zero.events, batch));
    OneMore(zero, batch, cfg, 0, zero, one);
    if (d != zero && d != one) || complete { OneMore(zero, batch, cfg, 1, one, d); }
  }

  /** One batch of `size` events, all of them convertible, `growth` of them new. */
  ghost predicate AddedUp(before: WriteSummary, after: WriteSummary, size: nat, growth: int) {
    && after.attempted == before.attempted + size
    && after.inserted == before.inserted + growth
    && after.deduplicated == before.deduplicated + size - growth
    && after.skipped == before.skipped
  }

  lemma LaterStages(zero: Db, batch: seq<NormalizedEvent>, cfg: PipelineConfig, two: Db, d: Db, complete: bool)
    requires After(zero, batch, cfg, 2) == Some(two)
    requires LastTwo(two, batch, cfg, d, complete)
    ensures SomePrefix(zero, batch, cfg, d)
    ensures complete ==> After(zero, batch, cfg, 4) == Some(d)
  {
    if d != two || complete {
      var three := Effect(two, batch, cfg, 2).value;
      OneMore(zero, batch, cfg, 2, two, three);
      if d != three || complete {
        OneMore(zero, batch, cfg, 3, three, d);
      }
    }
  }

  // ---------------------------------------------------------------- the receive loop

  /** Every event seen was skipped, inserted or recognised as a duplicate. */
  predicate Exact(s: PipelineSummary) {
    && s.eventsSeen == s.eventsSkipped + s.writeSummary.inserted + s.writeSummary.deduplicated
    && s.writeSummary.attempted == s.writeSummary.inserted + s.writeSummary.deduplicated
    && s.writeSummary.skipped == 0
  }

  /** `m` is the greatest of `base` and the slots of the events, as far as there are any. */
  ghost predicate IsHighest(m: Option<int>, base: Option<int>, events: seq<NormalizedEvent>) {
    && AtMost(base, m) && (forall e | e in events :: AtMost(Some(e.identity.slot), m))
    && (m == base || exists e :: e in events && m == Some(e.identity.slot))
  }

  /** Among these events is one after which the watermark is asked for. */
  ghost predicate AsksForFrontier(cfg: PipelineConfig, events: seq<NormalizedEvent>) {
    cfg.recordsSlots && cfg.advanceFinalizedWatermark && exists e :: e in events && Finalizes(e, e.identity.slot)
  }

  /** After the batches `done`: their greatest slot and, once the watermark was asked for, the stored frontier. */
  ghost predicate ShowsCursor(start: Db, done: seq<seq<NormalizedEvent>>, cfg: PipelineConfig, s: PipelineSummary) {
    && IsHighest(s.lastPersistedSlot, cfg.resumeAfterSlot, Flatten(done))
    && Exec(start, done, cfg).Some?
    && var cursor := Exec(start, done, cfg).value.cursor;
       if AsksForFrontier(cfg, Flatten(done)) then
         s.lastContiguousFinalizedSlot == Stored(cursor) && s.lastFinalizedSlot == HeadOf(cursor)
       else s.lastContiguousFinalizedSlot.None? && s.lastFinalizedSlot.None?
  }

  /** What a summary published after the batches `done` says, at some point of the input. */
  ghost predicate Summarizes(start: Db, events: seq<NormalizedEvent>, done: seq<seq<NormalizedEvent>>,
                             cfg: PipelineConfig, s: PipelineSummary)
  {
    && ShowsCursor(start, done, cfg, s) && Exact(s) && s.batchesWritten == |done|
    && s.eventsSeen <= |events| && Accepted(events[..s.eventsSeen], cfg) == Flatten(done)
    && s.writeSummary.attempted == |Flatten(done)|
    && s.writeSummary.inserted == |Exec(start, done, cfg).value.events| - |start.events|
  }

  lemma ExecSnoc(db: Db, batches: seq<seq<NormalizedEvent>>, cfg: PipelineConfig, batch: seq<NormalizedEvent>, d: Db)
    requires Exec(db, batches, cfg) == Some(d)
    ensures Exec(db, batches + [batch], cfg) == After(d, batch, cfg, 4)
  {
    assert (batches + [batch])[..|batches|] == batches;
  }

  /** A batch under way is the next chunk of everything accepted. */
  lemma NextChunk(written: seq<seq<NormalizedEvent>>, batch: seq<NormalizedEvent>, rest: seq<NormalizedEvent>, n: nat)
    requires n > 0 && forall i | 0 <= i < |written| :: |written[i]| == n
    requires 0 < |batch| <= n && (rest != [] ==> |batch| == n)
    ensures var all := Chunks(Flatten(written) + batch + rest, n);
            |written| < |all| && all[..|written|] == written && all[|written|] == batch
            && (rest == [] ==> all == written + [batch])
  {
    assert Flatten(written) + batch + rest == Flatten(written) + (batch + rest);
    ChunksSplit(written, batch + rest, n);
    if rest == [] {
      assert batch + rest == batch;
    } else {
      assert (batch + rest)[..n] == batch;
    }
  }

  /** A run over `events` has come to a halt inside one of its batches. */
  ghost predicate Stopped(start: Db, events: seq<NormalizedEvent>, cfg: PipelineConfig, db: Db)
    requires cfg.batchSize > 0
  {
    var chunks := Chunks(Accepted(events, cfg), cfg.batchSize);
    exists j, k :: 0 <= j < |chunks| && 0 <= k <= 4 && Cut(start, chunks, cfg, j, k) == Some(db)
  }

  /** Writes the batch that follows the batches `written` so far, of everything accepted from `events`. */
  method StoreNext(db: Database, cfg: PipelineConfig, batch: seq<NormalizedEvent>, summary: PipelineSummary,
                   ghost start: Db, ghost events: seq<NormalizedEvent>, ghost written: seq<seq<NormalizedEvent>>)
    returns (r: Result<PipelineSummary, PipelineError>)
    requires cfg.batchSize > 0 && batch != []
    requires Exec(start, written, cfg) == Some(db.State())
    requires var chunks := Chunks(Accepted(events, cfg), cfg.batchSize);
             |written| < |chunks| && chunks[..|written|] == written && chunks[|written|] == batch
    requires summary.eventsSkipped + summary.writeSummary.attempted + |batch| == summary.eventsSeen
    requires Accounted(summary, summary.eventsSeen, summary.eventsSkipped, |batch|, |written|,
                       |db.State().events| - |start.events|)
    requires ShowsCursor(start, written, cfg, summary)
    modifies db
    ensures r.Err? ==> Stopped(start, events, cfg, db.State())
    ensures r.Ok? ==> Exec(start, written + [batch], cfg) == Some(db.State())
    ensures r.Ok? ==> Accounted(r.value, summary.eventsSeen, summary.eventsSkipped, 0, |written| + 1,
                                |db.State().events| - |start.events|)
    ensures r.Ok? ==> ShowsCursor(start, written + [batch], cfg, r.value)
  {
    ghost var before := db.State();
    r := WriteBatch(db, cfg, batch, summary);
    if r.Err? {
      ghost var k :| 0 <= k <= 4 && After(before, batch, cfg, k) == Some(db.State());
      assert Cut(start, Chunks(Accepted(events, cfg), cfg.batchSize), cfg, |written|, k) == Some(db.State());
    } else {
      ExecSnoc(start, written, cfg, batch, before);
      CursorStillShown(start, written, cfg, summary, batch, r.value);
    }
  }

  /** One turn of the receive loop. */
  method Receive(event: NormalizedEvent, batcher: Batcher, db: Database, cfg: PipelineConfig, summary: PipelineSummary,
                 ghost start: Db, ghost events: seq<NormalizedEvent>, ghost i: nat,
                 ghost written: seq<seq<NormalizedEvent>>)
    returns (r: Result<PipelineSummary, PipelineError>, ghost written': seq<seq<NormalizedEvent>>)
    requires cfg.batchSize > 0 && batcher.capacity == cfg.batchSize && |batcher.pending| < cfg.batchSize
    requires i < |events| && events[i] == event
    requires Progress(start, events[..i], cfg, written, batcher.pending, summary, db.State())
    modifies batcher, db
    ensures |batcher.pending| < cfg.batchSize
    ensures r.Err? ==> Stopped(start, events, cfg, db.State())
    ensures r.Ok? ==> Progress(start, events[..i + 1], cfg, written', batcher.pending, r.value, db.State())
    ensures r.Ok? ==> |written'| == r.value.batchesWritten <= |written| + 1 && |written| <= |written'|
    ensures r.Ok? && r.value.batchesWritten > summary.batchesWritten ==> batcher.pending == []
  {
    SplitInput(events, i, cfg);
    written' := written;
    var seen := summary.(eventsSeen := summary.eventsSeen + 1);
    if ShouldSkip(event, cfg) {
      SkipProgresses(start, events, i, cfg, written, batcher.pending, summary, db.State());
      return Ok(seen.(eventsSkipped := seen.eventsSkipped + 1)), written;
    }
    PendProgresses(start, events, i, cfg, written, batcher.pending, summary, db.State());
    var full := batcher.Push(event);
    if full.None? {
      return Ok(seen), written;
    }
    NextChunk(written, full.value, Accepted(events[i + 1..], cfg), cfg.batchSize);
    r := StoreNext(db, cfg, full.value, seen, start, events, written);
    written' := written + [full.value];
    if r.Ok? { StoreProgresses(start, events[..i + 1], cfg, written, full.value, r.value, db.State()); }
  }

  /** After the start and after every batch, and once more at the end if the last batch was full. */
  ghost predicate AllBatchesPublished(published: seq<PipelineSummary>, batches: nat) {
    && batches + 1 <= |published| <= batches + 2
    && forall k | 0 <= k < |published| :: published[k].batchesWritten == Min(k, batches)
  }

  /** Each summary tells of the batches written before it was published; the last one may repeat all of them. */
  ghost predicate AllSummarize(start: Db, events: seq<NormalizedEvent>, cfg: PipelineConfig,
                               published: seq<PipelineSummary>)
    requires cfg.batchSize > 0
  {
    forall k | 0 <= k < |published| :: SummarizesFirst(start, events, cfg, k, published[k])
  }

  ghost predicate SummarizesFirst(start: Db, events: seq<NormalizedEvent>, cfg: PipelineConfig, k: nat,
                                  s: PipelineSummary)
    requires cfg.batchSize > 0
  {
    var chunks := Chunks(Accepted(events, cfg), cfg.batchSize);
    Summarizes(start, events, chunks[..Min(k, |chunks|)], cfg, s)
  }

  function InitialSummary(cfg: PipelineConfig): PipelineSummary {
    PipelineSummary(0, 0, 0, WriteSummary(0, 0, 0, 0), cfg.resumeAfterSlot, None, None)
  }

  lemma NothingShown(start: Db, cfg: PipelineConfig)
    ensures ShowsCursor(start, [], cfg, InitialSummary(cfg))
  {
  }

  lemma NothingYet(start: Db, events: seq<NormalizedEvent>, cfg: PipelineConfig)
    requires cfg.batchSize > 0
    ensures Progress(start, events[..0], cfg, [], [], InitialSummary(cfg), start)
    ensures AllSummarize(start, events, cfg, [InitialSummary(cfg)])
  {
    NothingShown(start, cfg);
    assert events[..0] == [];
    assert Flatten<NormalizedEvent>([]) + [] == [];
    PublishBatch(start, events, 0, cfg, [], [], InitialSummary(cfg), start);
    assert [] + [InitialSummary(cfg)] == [InitialSummary(cfg)];
  }

  /** `events` is what the channel delivers until it is closed. */
  method RunReceiver(events: seq<NormalizedEvent>, db: Database, cfg: PipelineConfig)
    returns (r: Result<PipelineSummary, PipelineError>, published: seq<PipelineSummary>)
    requires cfg.batchSize > 0
    modifies db
    ensures r.Ok? ==> Exec(old(db.State()), Chunks(Accepted(events, cfg), cfg.batchSize), cfg) == Some(db.State())
    ensures r.Err? ==> Stopped(old(db.State()), events, cfg, db.State())
    ensures AllSummarize(old(db.State()), events, cfg, published)
    ensures r.Ok? ==> AllBatchesPublished(published, |Chunks(Accepted(events, cfg), cfg.batchSize)|)
    ensures r.Ok? ==> r.value == published[|published| - 1]
    ensures r.Ok? ==> Accounted(r.value, |events|, |events| - |Accepted(events, cfg)|, 0,
                                |Chunks(Accepted(events, cfg), cfg.batchSize)|,
                                |db.State().events| - |old(db.State()).events|)
  {
    ghost var start := db.State();
    var batcher := new Batcher(cfg.batchSize);
    ghost var written;
    r, published, written := ReceiveAll(events, batcher, db, cfg, start);
    if r.Err? { return; }
    r := WriteRest(batcher, db, cfg, r.value, start, events, written);
    if r.Err? { return; }
    PublishNext(start, events, cfg, published, r.value);
    published := published + [r.value];
    PublishedAll(start, events, cfg, published);
  }

  /** One turn of the loop; after one that wrote a batch the summary is published. */
  method Turn(event: NormalizedEvent, batcher: Batcher, db: Database, cfg: PipelineConfig, summary: PipelineSummary,
              published: seq<PipelineSummary>, ghost start: Db, ghost events: seq<NormalizedEvent>, ghost i: nat,
              ghost written: seq<seq<NormalizedEvent>>)
    returns (r: Result<PipelineSummary, PipelineError>, published': seq<PipelineSummary>,
             ghost written': seq<seq<NormalizedEvent>>)
    requires cfg.batchSize > 0 && batcher.capacity == cfg.batchSize && |batcher.pending| < cfg.batchSize
    requires i < |events| && events[i] == event
    requires Progress(start, events[..i], cfg, written, batcher.pending, summary, db.State())
    requires AllSummarize(start, events, cfg, published) && |published| == |written| + 1
    modifies batcher, db
    ensures |batcher.pending| < cfg.batchSize
    ensures r.Err? ==> Stopped(start, events, cfg, db.State())
    ensures r.Ok? ==> Progress(start, events[..i + 1], cfg, written', batcher.pending, r.value, db.State())
    ensures AllSummarize(start, events, cfg, published') && (r.Ok? ==> |published'| == |written'| + 1)
  {
    published' := published;
    r, written' := Receive(event, batcher, db, cfg, summary, start, events, i, written);
    if r.Ok? && r.value.batchesWritten > summary.batchesWritten {
      PublishBatch(start, events, i + 1, cfg, written', published, r.value, db.State());
      published' := published + [r.value];
    }
  }

  /** The loop over the events, which ends with the channel. */
  method ReceiveAll(events: seq<NormalizedEvent>, batcher: Batcher, db: Database, cfg: PipelineConfig, ghost start: Db)
    returns (r: Result<PipelineSummary, PipelineError>, published: seq<PipelineSummary>,
             ghost written: seq<seq<NormalizedEvent>>)
    requires cfg.batchSize > 0 && batcher.capacity == cfg.batchSize && batcher.pending == [] && db.State() == start
    modifies batcher, db
    ensures |batcher.pending| < cfg.batchSize
    ensures r.Err? ==> Stopped(start, events, cfg, db.State())
    ensures r.Ok? ==> Progress(start, events, cfg, written, batcher.pending, r.value, db.State())
    ensures AllSummarize(start, events, cfg, published)
    ensures r.Ok? ==> |published| == |written| + 1
  {
    var summary := InitialSummary(cfg);
    published, written := [summary], [];
    NothingYet(start, events, cfg);
    for i := 0 to |events|
      invariant |batcher.pending| < cfg.batchSize
      invariant Progress(start, events[..i], cfg, written, batcher.pending, summary, db.State())
      invariant AllSummarize(start, events, cfg, published) && |published| == |written| + 1
    {
      r, published, written := Turn(events[i], batcher, db, cfg, summary, published, start, events, i, written);
      if r.Err? { return; }
      summary := r.value;
    }
    assert events[..|events|] == events;
    r := Ok(summary);
  }

  /** The batch left over when the channel is closed. */
  method WriteRest(batcher: Batcher, db: Database, cfg: PipelineConfig, summary: PipelineSummary,
                   ghost start: Db, ghost events: seq<NormalizedEvent>, ghost written: seq<seq<NormalizedEvent>>)
    returns (r: Result<PipelineSummary, PipelineError>)
    requires cfg.batchSize > 0 && |batcher.pending| < cfg.batchSize
    requires Progress(start, events, cfg, written, batcher.pending, summary, db.State())
    modifies batcher, db
    ensures r.Err? ==> Stopped(start, events, cfg, db.State())
    ensures r.Ok? ==> forall k | k >= |Chunks(Accepted(events, cfg), cfg.batchSize)| ::
                        SummarizesFirst(start, events, cfg, k, r.value)
    ensures r.Ok? ==> |written| <= r.value.batchesWritten <= |written| + 1
    ensures r.Ok? ==>
              var chunks := Chunks(Accepted(events, cfg), cfg.batchSize);
              && Exec(start, chunks, cfg) == Some(db.State())
              && Accounted(r.value, |events|, |events| - |Accepted(events, cfg)|, 0, |chunks|,
                          |db.State().events| - |start.events|)
  {
    assert Flatten(written) + batcher.pending + [] == Accepted(events, cfg);
    var rest := batcher.Flush();
    if rest.Some? {
      NextChunk(written, rest.value, [], cfg.batchSize);
      r := StoreNext(db, cfg, rest.value, summary, start, events, written);
    } else {
      ChunksSplit(written, [], cfg.batchSize);
      assert Flatten(written) + [] == Accepted(events, cfg);
      assert written + Chunks<NormalizedEvent>([], cfg.batchSize) == written;
      r := Ok(summary);
    }
    if r.Ok? { AllSummarized(start, events, cfg, r.value, db.State()); }
  }

  /** What holds between two events of the receive loop, after the events `seen`. */
  ghost predicate Progress(start: Db, seen: seq<NormalizedEvent>, cfg: PipelineConfig,
                           written: seq<seq<NormalizedEvent>>, pending: seq<NormalizedEvent>,
                           summary: PipelineSummary, db: Db)
  {
    && (forall b | 0 <= b < |written| :: |written[b]| == cfg.batchSize)
    && Flatten(written) + pending == Accepted(seen, cfg)
    && Exec(start, written, cfg) == Some(db)
    && Accounted(summary, |seen|, |seen| - |Accepted(seen, cfg)|, |pending|, |written|, |db.events| - |start.events|)
    && ShowsCursor(start, written, cfg, summary)
  }

  lemma SkipProgresses(start: Db, events: seq<NormalizedEvent>, i: nat, cfg: PipelineConfig,
                       written: seq<seq<NormalizedEvent>>, pending: seq<NormalizedEvent>, s: PipelineSummary, db: Db)
    requires i < |events| && Progress(start, events[..i], cfg, written, pending, s, db) && ShouldSkip(events[i], cfg)
    ensures Progress(start, events[..i + 1], cfg, written, pending,
                     s.(eventsSeen := s.eventsSeen + 1, eventsSkipped := s.eventsSkipped + 1), db)
  {
    SplitInput(events, i, cfg);
    assert Accepted(events[..i], cfg) + [] == Accepted(events[..i], cfg);
  }

  lemma PendProgresses(start: Db, events: seq<NormalizedEvent>, i: nat, cfg: PipelineConfig,
                       written: seq<seq<NormalizedEvent>>, pending: seq<NormalizedEvent>, s: PipelineSummary, db: Db)
    requires i < |events| && Progress(start, events[..i], cfg, written, pending, s, db) && !ShouldSkip(events[i], cfg)
    ensures Progress(start, events[..i + 1], cfg, written, pending + [events[i]],
                     s.(eventsSeen := s.eventsSeen + 1), db)
  {
    SplitInput(events, i, cfg);
    Associates(Flatten(written), pending, [events[i]]);
  }

  lemma StoreProgresses(start: Db, seen: seq<NormalizedEvent>, cfg: PipelineConfig, written: seq<seq<NormalizedEvent>>,
                        batch: seq<NormalizedEvent>, s: PipelineSummary, db: Db)
    requires forall b | 0 <= b < |written| :: |written[b]| == cfg.batchSize
    requires |batch| == cfg.batchSize && Flatten(written) + batch == Accepted(seen, cfg)
    requires Exec(start, written + [batch], cfg) == Some(db) && ShowsCursor(start, written + [batch], cfg, s)
    requires Accounted(s, |seen|, |seen| - |Accepted(seen, cfg)|, 0, |written| + 1, |db.events| - |start.events|)
    ensures Progress(start, seen, cfg, written + [batch], [], s, db)
  {
    FlattenSnoc(written, batch);
    assert Flatten(written + [batch]) + [] == Flatten(written + [batch]);
  }

  lemma SplitInput(events: seq<NormalizedEvent>, i: nat, cfg: PipelineConfig)
    requires i < |events|
    ensures Accepted(events[..i + 1], cfg)
         == Accepted(events[..i], cfg) + if ShouldSkip(events[i], cfg) then [] else [events[i]]
    ensures Accepted(events, cfg) == Accepted(events[..i + 1], cfg) + Accepted(events[i + 1..], cfg)
  {
    assert events[..i + 1][..i] == events[..i];
    assert events == events[..i + 1] + events[i + 1..];
    AcceptedAppend(events[..i + 1], events[i + 1..], cfg);
  }

  ghost predicate Accounted(s: PipelineSummary, seen: nat, skipped: int, pending: nat, batches: nat, growth: int) {
    && s.eventsSeen == seen && s.eventsSkipped == skipped && s.batchesWritten == batches
    && s.eventsSkipped + s.writeSummary.attempted + pending == seen
    && s.writeSummary.attempted == s.writeSummary.inserted + s.writeSummary.deduplicated
    && s.writeSummary.skipped == 0 && s.writeSummary.inserted == growth
  }

  /** The watermark upsert leaves the persisted slot alone. */
  lemma BatchMovesPersisted(db: Db, batch: seq<NormalizedEvent>, cfg: PipelineConfig, d: Db)
    requires batch != [] && After(db, batch, cfg, 4) == Some(d)
    ensures PersistedOf(d.cursor) == Greatest(PersistedOf(db.cursor), Some(MaxSlot(batch)))
  {
    var three := After(db, batch, cfg, 3);
    var two := After(db, batch, cfg, 2);
    var one := After(db, batch, cfg, 1);
    assert three.Some? && two.Some? && one.Some?;
    assert After(db, batch, cfg, 0) == Some(db);
    assert one.value.cursor == db.cursor;
    assert two.value.cursor == Some(CursorUpsert(db.cursor, MaxSlot(batch)));
    assert three.value.cursor == two.value.cursor;
  }

  lemma BatchKeepsFrontier(db: Db, batch: seq<NormalizedEvent>, cfg: PipelineConfig, d: Db)
    requires batch != [] && After(db, batch, cfg, 4) == Some(d)
    ensures !(Advances(cfg, batch) && cfg.recordsSlots) ==>
              Stored(d.cursor) == Stored(db.cursor) && HeadOf(d.cursor) == HeadOf(db.cursor)
  {
    var three := After(db, batch, cfg, 3);
    var two := After(db, batch, cfg, 2);
    var one := After(db, batch, cfg, 1);
    assert three.Some? && two.Some? && one.Some?;
    assert After(db, batch, cfg, 0) == Some(db);
    assert two.value.cursor == Some(CursorUpsert(db.cursor, MaxSlot(batch)));
    assert three.value.cursor == two.value.cursor;
  }

  lemma HighestNext(m: Option<int>, base: Option<int>, events: seq<NormalizedEvent>, batch: seq<NormalizedEvent>)
    requires IsHighest(m, base, events) && batch != []
    ensures IsHighest(Greatest(m, Some(MaxSlot(batch))), base, events + batch)
  {
    MaxSlotBounds(batch);
  }

  /** Batches raise the persisted slot to the greatest of all their slots. */
  lemma {:induction false} ExecRaisesPersisted(db: Db, batches: seq<seq<NormalizedEvent>>, cfg: PipelineConfig, d: Db)
    requires Exec(db, batches, cfg) == Some(d) && forall i | 0 <= i < |batches| :: batches[i] != []
    ensures IsHighest(PersistedOf(d.cursor), PersistedOf(db.cursor), Flatten(batches))
  {
    if batches != [] {
      var front, last := batches[..|batches| - 1], batches[|batches| - 1];
      var before := Exec(db, front, cfg).value;
      ExecRaisesPersisted(db, front, cfg, before);
      BatchMovesPersisted(before, last, cfg, d);
      HighestNext(PersistedOf(before.cursor), PersistedOf(db.cursor), Flatten(front), last);
      assert batches == front + [last];
      FlattenSnoc(front, last);
    }
  }

  lemma AsksNext(cfg: PipelineConfig, events: seq<NormalizedEvent>, batch: seq<NormalizedEvent>)
    ensures AsksForFrontier(cfg, events + batch)
       <==> AsksForFrontier(cfg, events) || (cfg.recordsSlots && Advances(cfg, batch))
  {
    FinalizedReported(batch);
    assert forall e :: e in events + batch <==> e in events || e in batch;
  }

  /** Without tracking, or without a finalized report, a run leaves watermark and head alone. */
  lemma {:induction false} ExecKeepsFrontier(db: Db, batches: seq<seq<NormalizedEvent>>, cfg: PipelineConfig, d: Db)
    requires Exec(db, batches, cfg) == Some(d) && !AsksForFrontier(cfg, Flatten(batches))
    requires forall i | 0 <= i < |batches| :: batches[i] != []
    ensures Stored(d.cursor) == Stored(db.cursor) && HeadOf(d.cursor) == HeadOf(db.cursor)
  {
    if batches != [] {
      var front, last := batches[..|batches| - 1], batches[|batches| - 1];
      assert batches == front + [last];
      FlattenSnoc(front, last);
      AsksNext(cfg, Flatten(front), last);
      ExecKeepsFrontier(db, front, cfg, Exec(db, front, cfg).value);
      BatchKeepsFrontier(Exec(db, front, cfg).value, last, cfg, d);
    }
  }

  /** The summary after one more batch shows the cursor after it. */
  lemma CursorStillShown(start: Db, done: seq<seq<NormalizedEvent>>, cfg: PipelineConfig, s: PipelineSummary,
                         batch: seq<NormalizedEvent>, s': PipelineSummary)
    requires ShowsCursor(start, done, cfg, s) && batch != [] && Exec(start, done + [batch], cfg).Some?
    requires s'.lastPersistedSlot == Greatest(s.lastPersistedSlot, Some(MaxSlot(batch)))
    requires FrontierShown(cfg, batch, s, s', Exec(start, done + [batch], cfg).value.cursor)
    ensures ShowsCursor(start, done + [batch], cfg, s')
  {
    var before := Exec(start, done, cfg).value;
    ExecSnoc(start, done, cfg, batch, before);
    FlattenSnoc(done, batch);
    HighestNext(s.lastPersistedSlot, cfg.resumeAfterSlot, Flatten(done), batch);
    AsksNext(cfg, Flatten(done), batch);
    BatchKeepsFrontier(before, batch, cfg, Exec(start, done + [batch], cfg).value);
  }

  lemma AllSummarized(start: Db, events: seq<NormalizedEvent>, cfg: PipelineConfig, s: PipelineSummary, db: Db)
    requires cfg.batchSize > 0
    requires var chunks := Chunks(Accepted(events, cfg), cfg.batchSize);
             && Exec(start, chunks, cfg) == Some(db) && ShowsCursor(start, chunks, cfg, s)
             && Accounted(s, |events|, |events| - |Accepted(events, cfg)|, 0, |chunks|, |db.events| - |start.events|)
    ensures forall k | k >= |Chunks(Accepted(events, cfg), cfg.batchSize)| :: SummarizesFirst(start, events, cfg, k, s)
  {
    var chunks := Chunks(Accepted(events, cfg), cfg.batchSize);
    assert chunks[..|chunks|] == chunks;
    ChunksFlatten(Accepted(events, cfg), cfg.batchSize);
    assert events[..|events|] == events;
  }

  lemma PublishNext(start: Db, events: seq<NormalizedEvent>, cfg: PipelineConfig, published: seq<PipelineSummary>,
                    s: PipelineSummary)
    requires cfg.batchSize > 0 && AllSummarize(start, events, cfg, published)
    requires SummarizesFirst(start, events, cfg, |published|, s)
    ensures AllSummarize(start, events, cfg, published + [s])
  {
    forall k | 0 <= k < |published + [s]| ensures SummarizesFirst(start, events, cfg, k, (published + [s])[k]) {
      if k < |published| { assert (published + [s])[k] == published[k]; }
    }
  }

  /** Full batches that hold what was accepted of the first events are the first chunks of everything. */
  lemma FirstChunks(events: seq<NormalizedEvent>, i: nat, cfg: PipelineConfig, written: seq<seq<NormalizedEvent>>)
    requires cfg.batchSize > 0 && i <= |events| && Flatten(written) == Accepted(events[..i], cfg)
    requires forall b | 0 <= b < |written| :: |written[b]| == cfg.batchSize
    ensures written <= Chunks(Accepted(events, cfg), cfg.batchSize)
  {
    assert events == events[..i] + events[i..];
    AcceptedAppend(events[..i], events[i..], cfg);
    ChunksSplit(written, Accepted(events[i..], cfg), cfg.batchSize);
  }

  /** A summary with nothing pending summarizes the batches written. */
  lemma NothingPending(start: Db, events: seq<NormalizedEvent>, i: nat, cfg: PipelineConfig,
                       written: seq<seq<NormalizedEvent>>, s: PipelineSummary, db: Db)
    requires i <= |events| && Progress(start, events[..i], cfg, written, [], s, db)
    ensures Summarizes(start, events, written, cfg, s) && Flatten(written) == Accepted(events[..i], cfg)
  {
    assert Flatten(written) + [] == Flatten(written);
  }

  lemma WrittenSummarized(start: Db, events: seq<NormalizedEvent>, cfg: PipelineConfig,
                          written: seq<seq<NormalizedEvent>>, s: PipelineSummary)
    requires cfg.batchSize > 0 && Summarizes(start, events, written, cfg, s)
    requires written <= Chunks(Accepted(events, cfg), cfg.batchSize)
    ensures SummarizesFirst(start, events, cfg, |written|, s)
  {
    assert Chunks(Accepted(events, cfg), cfg.batchSize)[..|written|] == written;
  }

  lemma PublishBatch(start: Db, events: seq<NormalizedEvent>, i: nat, cfg: PipelineConfig,
                     written: seq<seq<NormalizedEvent>>, published: seq<PipelineSummary>, s: PipelineSummary, db: Db)
    requires cfg.batchSize > 0 && i <= |events| && Progress(start, events[..i], cfg, written, [], s, db)
    requires AllSummarize(start, events, cfg, published) && |published| == |written|
    ensures AllSummarize(start, events, cfg, published + [s])
  {
    NothingPending(start, events, i, cfg, written, s, db);
    FirstChunks(events, i, cfg, written);
    WrittenSummarized(start, events, cfg, written, s);
    PublishNext(start, events, cfg, published, s);
  }

  lemma PublishedAll(start: Db, events: seq<NormalizedEvent>, cfg: PipelineConfig, published: seq<PipelineSummary>)
    requires cfg.batchSize > 0 && AllSummarize(start, events, cfg, published)
    ensures forall k | 0 <= k < |published| ::
              published[k].batchesWritten == Min(k, |Chunks(Accepted(events, cfg), cfg.batchSize)|)
  {
    forall k | 0 <= k < |published|
      ensures published[k].batchesWritten == Min(k, |Chunks(Accepted(events, cfg), cfg.batchSize)|)
    {
      assert SummarizesFirst(start, events, cfg, k, published[k]);
    }
  }

  lemma HighestIsUnique(m: Option<int>, n: Option<int>, base: Option<int>, events: seq<NormalizedEvent>)
    requires IsHighest(m, base, events) && IsHighest(n, base, events)
    ensures m == n
  {
  }

  lemma ShowsHighest(start: Db, events: seq<NormalizedEvent>, cfg: PipelineConfig, k: nat, s: PipelineSummary)
    requires cfg.batchSize > 0 && SummarizesFirst(start, events, cfg, k, s)
    requires k >= |Chunks(Accepted(events, cfg), cfg.batchSize)|
    ensures IsHighest(s.lastPersistedSlot, cfg.resumeAfterSlot, Accepted(events, cfg))
  {
    var chunks := Chunks(Accepted(events, cfg), cfg.batchSize);
    assert chunks[..|chunks|] == chunks;
    ChunksFlatten(Accepted(events, cfg), cfg.batchSize);
  }

  /** The last summary of a run that resumed from the stored slot shows the slot stored at its end. */
  lemma ShownIsPersisted(start: Db, events: seq<NormalizedEvent>, cfg: PipelineConfig, published: seq<PipelineSummary>,
                         d: Db)
    requires cfg.batchSize > 0 && AllSummarize(start, events, cfg, published)
    requires cfg.resumeAfterSlot == PersistedOf(start.cursor)
    requires var chunks := Chunks(Accepted(events, cfg), cfg.batchSize);
             && |chunks| < |published| && Exec(start, chunks, cfg) == Some(d)
             && forall i | 0 <= i < |chunks| :: chunks[i] != []
    ensures published[|published| - 1].lastPersistedSlot == PersistedOf(d.cursor)
  {
    var k := |published| - 1;
    ShowsHighest(start, events, cfg, k, published[k]);
    ExecRaisesPersisted(start, Chunks(Accepted(events, cfg), cfg.batchSize), cfg, d);
    ChunksFlatten(Accepted(events, cfg), cfg.batchSize);
    HighestIsUnique(published[k].lastPersistedSlot, PersistedOf(d.cursor), cfg.resumeAfterSlot, Accepted(events, cfg));
  }

  // ---------------------------------------------------------------- what whole runs write

  lemma {:induction false} ExecTables(db: Db, batches: seq<seq<NormalizedEvent>>, cfg: PipelineConfig, d: Db)
    requires Exec(db, batches, cfg) == Some(d)
    ensures d.events == InsertAll(db.events, Flatten(batches))
    ensures d.slots == if cfg.recordsSlots then UpsertAll(db.slots, SlotStates(Flatten(batches))) else db.slots
  {
    if batches != [] {
      var front, last := batches[..|batches| - 1], batches[|batches| - 1];
      var before := Exec(db, front, cfg).value;
      ExecTables(db, front, cfg, before);
      assert batches == front + [last];
      FlattenSnoc(front, last);
      AfterTables(before, last, cfg, 4, d);
      InsertAllAppend(db.events, Flatten(front), last);
      SlotStatesAppend(Flatten(front), last);
      UpsertAllAppend(db.slots, SlotStates(Flatten(front)), SlotStates(last));
    }
  }

  lemma AfterTables(db: Db, batch: seq<NormalizedEvent>, cfg: PipelineConfig, k: nat, d: Db)
    requires k <= 4 && After(db, batch, cfg, k) == Some(d)
    ensures d.events == if k >= 1 then InsertAll(db.events, batch) else db.events
    ensures d.slots == if k >= 3 && cfg.recordsSlots then UpsertAll(db.slots, SlotStates(batch)) else db.slots
  {
    if k > 0 {
      AfterTables(db, batch, cfg, k - 1, After(db, batch, cfg, k - 1).value);
    }
  }

  /** A crash state holds the events of every batch begun and the slot rows of every batch that got that far. */
  lemma CutTables(db: Db, batches: seq<seq<NormalizedEvent>>, cfg: PipelineConfig, j: nat, k: nat, d: Db)
    requires j < |batches| && k <= 4 && Cut(db, batches, cfg, j, k) == Some(d)
    ensures d.events == InsertAll(db.events, Flatten(batches[..if k >= 1 then j + 1 else j]))
    ensures d.slots == if cfg.recordsSlots
                       then UpsertAll(db.slots, SlotStates(Flatten(batches[..if k >= 3 then j + 1 else j])))
                       else db.slots
  {
    var before := Exec(db, batches[..j], cfg).value;
    ExecTables(db, batches[..j], cfg, before);
    AfterTables(before, batches[j], cfg, k, d);
    assert batches[..j + 1] == batches[..j] + [batches[j]];
    FlattenSnoc(batches[..j], batches[j]);
    InsertAllAppend(db.events, Flatten(batches[..j]), batches[j]);
    SlotStatesAppend(Flatten(batches[..j]), batches[j]);
    UpsertAllAppend(db.slots, SlotStates(Flatten(batches[..j])), SlotStates(batches[j]));
  }

  lemma PrefixOfInput(events: seq<NormalizedEvent>, n: nat, j: nat)
    requires n > 0 && j <= |Chunks(events, n)|
    ensures Flatten(Chunks(events, n)[..j]) <= events
  {
    var chunks := Chunks(events, n);
    ChunksFlatten(events, n);
    assert chunks == chunks[..j] + chunks[j..];
    FlattenAppend(chunks[..j], chunks[j..]);
  }

  /** Past the cursor update of a batch every one of its events was convertible. */
  lemma AfterMeansStorable(db: Db, batch: seq<NormalizedEvent>, cfg: PipelineConfig, k: nat)
    requires 2 <= k <= 4 && After(db, batch, cfg, k).Some?
    ensures forall e | e in batch :: EventStorable(e)
  {
    assert After(db, batch, cfg, 2).Some? by {
      if k == 4 { assert After(db, batch, cfg, 3).Some?; }
    }
    var one := After(db, batch, cfg, 1);
    assert one.Some? && Effect(one.value, batch, cfg, 1).Some?;
    if batch != [] { MaxSlotBounds(batch); }
  }

  lemma {:induction false} ExecMeansStorable(db: Db, batches: seq<seq<NormalizedEvent>>, cfg: PipelineConfig)
    requires Exec(db, batches, cfg).Some?
    ensures forall e | e in Flatten(batches) :: EventStorable(e)
  {
    if batches != [] {
      var front, last := batches[..|batches| - 1], batches[|batches| - 1];
      ExecMeansStorable(db, front, cfg);
      AfterMeansStorable(Exec(db, front, cfg).value, last, cfg, 4);
      assert batches == front + [last];
      FlattenSnoc(front, last);
    }
  }

  /** What a crash state has recorded slot rows of was convertible throughout. */
  lemma RecordedIsStorable(db: Db, batches: seq<seq<NormalizedEvent>>, cfg: PipelineConfig, j: nat, k: nat)
    requires j < |batches| && k <= 4 && Cut(db, batches, cfg, j, k).Some?
    ensures forall e | e in Flatten(batches[..if k >= 3 then j + 1 else j]) :: EventStorable(e)
  {
    ExecMeansStorable(db, batches[..j], cfg);
    if k >= 3 {
      AfterMeansStorable(Exec(db, batches[..j], cfg).value, batches[j], cfg, k);
      assert batches[..j + 1] == batches[..j] + [batches[j]];
      FlattenSnoc(batches[..j], batches[j]);
    }
  }

  /**
   With slot resume off: wherever a run stops, a slot that it has recorded as finalized was reported by some event,
   and that event and everything received before it is already in the events table.
   */
  lemma FinalizedMeansPrefixPersisted(db: Db, events: seq<NormalizedEvent>, cfg: PipelineConfig, j: nat, k: nat, d: Db,
                                      slot: int)
    requires cfg.batchSize > 0 && !cfg.useSlotResume
    requires j < |Chunks(Accepted(events, cfg), cfg.batchSize)| && k <= 4
    requires Cut(db, Chunks(Accepted(events, cfg), cfg.batchSize), cfg, j, k) == Some(d)
    requires slot in FinalizedParents(d.slots) && slot !in FinalizedParents(db.slots)
    ensures exists i :: 0 <= i < |events| && events[i].identity.Slot? && events[i].identity.slot == slot
                        && events[i].identity.status == Finalized
                        && forall x | 0 <= x <= i :: events[x].identity in d.events
  {
    NothingSkipped(events, cfg);
    var chunks := Chunks(events, cfg.batchSize);
    var r, h := if k >= 3 then j + 1 else j, if k >= 1 then j + 1 else j;
    CutTables(db, chunks, cfg, j, k, d);
    RecordedIsStorable(db, chunks, cfg, j, k);
    PrefixOfInput(events, cfg.batchSize, r);
    PrefixOfInput(events, cfg.batchSize, h);
    MoreIsLonger(chunks, r, h);
    ReportedWithPrefix(db, events, Flatten(chunks[..h]), Flatten(chunks[..r]), slot);
  }

  lemma MoreIsLonger<T>(batches: seq<seq<T>>, r: nat, h: nat)
    requires r <= h <= |batches|
    ensures |Flatten(batches[..r])| <= |Flatten(batches[..h])|
  {
    assert batches[..h] == batches[..r] + batches[r..h];
    FlattenAppend(batches[..r], batches[r..h]);
  }

  lemma ReportedWithPrefix(db: Db, events: seq<NormalizedEvent>, inserted: seq<NormalizedEvent>,
                           recorded: seq<NormalizedEvent>, slot: int)
    requires inserted <= events && recorded <= events && |recorded| <= |inserted|
    requires forall e | e in recorded :: EventStorable(e)
    requires slot in FinalizedParents(UpsertAll(db.slots, SlotStates(recorded))) && slot !in FinalizedParents(db.slots)
    ensures exists i :: 0 <= i < |events| && events[i].identity.Slot? && events[i].identity.slot == slot
                        && events[i].identity.status == Finalized
                        && forall x | 0 <= x <= i :: events[x].identity in InsertAll(db.events, inserted)
  {
    var i := ReportingEvent(db.slots, recorded, slot);
    assert events[i] == recorded[i];
    AllUpTo(db.events, events, inserted, recorded, i);
  }

  lemma ReportingEvent(t: SlotTable, recorded: seq<NormalizedEvent>, slot: int) returns (i: nat)
    requires slot in FinalizedParents(UpsertAll(t, SlotStates(recorded))) && slot !in FinalizedParents(t)
    ensures i < |recorded| && recorded[i].identity.Slot? && recorded[i].identity.slot == slot
    ensures recorded[i].identity.status == Finalized
  {
    FlagsAfter(t, SlotStates(recorded), slot);
    var u :| u in SlotStates(recorded) && u.slot == slot && u.finalized;
    SlotStatesAreReports(recorded);
    var e :| e in recorded && Tells(e, u);
    i :| 0 <= i < |recorded| && recorded[i] == e;
  }

  lemma AllUpTo(t: EventTable, events: seq<NormalizedEvent>, inserted: seq<NormalizedEvent>,
                recorded: seq<NormalizedEvent>, i: nat)
    requires inserted <= events && recorded <= events && i < |recorded| <= |inserted|
    requires forall e | e in recorded :: EventStorable(e)
    ensures forall x | 0 <= x <= i :: events[x].identity in InsertAll(t, inserted)
  {
    DeliveredIsThere(t, inserted);
    forall x | 0 <= x <= i ensures events[x].identity in InsertAll(t, inserted) {
      assert events[x] == inserted[x] == recorded[x];
    }
  }
}
