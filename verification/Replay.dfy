/**
 Restarting a replay: when skipping by slot loses nothing, and why full redelivery never does.
 */
module Replay {
  import opened Base
  import opened EventIdentities
  import opened SlotTables
  import opened Storage
  import opened Pipeline

  type Events = seq<NormalizedEvent>

  ghost function Resume(db: Db): Option<u64> {
    var persisted := PersistedOf(db.cursor);
    if persisted.Some? && 0 <= persisted.value <= MAX_U64 then Some(persisted.value) else None
  }

  /** Replay mode: skip up to the stored cursor, keep no slot states. */
  ghost function ReplayConfig(n: nat, db: Db): PipelineConfig {
    PipelineConfig(n, Resume(db), false, true, false)
  }

  ghost function Planned(events: Events, cfg: PipelineConfig): seq<Events>
    requires cfg.batchSize > 0
  {
    Chunks(Accepted(events, cfg), cfg.batchSize)
  }

  ghost predicate Completes(db: Db, events: Events, cfg: PipelineConfig, d: Db)
    requires cfg.batchSize > 0
  {
    Exec(db, Planned(events, cfg), cfg) == Some(d)
  }

  /** One run of the receiver: it is stopped somewhere, or it completes. */
  ghost predicate RunFrom(db: Db, events: Events, cfg: PipelineConfig, d: Db)
    requires cfg.batchSize > 0
  {
    Stopped(db, events, cfg, d) || Completes(db, events, cfg, d)
  }

  datatype ReplayError = CursorUnread(error: StoreError) | PipelineFailed(cause: PipelineError)

  /** Reads the cursor, then runs the receiver over the whole fixture. */
  method RunReplay(events: Events, db: Database, batchSize: nat) returns (r: Result<PipelineSummary, ReplayError>)
    requires batchSize > 0
    modifies db
    ensures r.Ok? ==> Completes(old(db.State()), events, ReplayConfig(batchSize, old(db.State())), db.State())
    ensures r.Ok? ==> r.value.lastPersistedSlot == PersistedOf(db.State().cursor)
    ensures r.Err? && r.error.PipelineFailed? ==>
              Stopped(old(db.State()), events, ReplayConfig(batchSize, old(db.State())), db.State())
    ensures r.Err? && r.error.CursorUnread? ==> db.State() == old(db.State())
    ensures db.slots == old(db.slots)
  {
    var cursor := db.GetCursor();
    if cursor.Err? { return Err(CursorUnread(cursor.error)); }
    var cfg := PipelineConfig(batchSize, cursor.value, false, true, false);
    assert cfg == ReplayConfig(batchSize, db.State());
    ghost var start := db.State();
    var outcome, published := RunReceiver(events, db, cfg);
    if outcome.Ok? {
      ChunksNonEmpty(Accepted(events, cfg), batchSize);
      ShownIsPersisted(start, events, cfg, published, db.State());
    }
    ReplayKeepsSlots(start, events, cfg, db.State());
    r := if outcome.Ok? then Ok(outcome.value) else Err(PipelineFailed(outcome.error));
  }

  /** Replay keeps no slot states. */
  lemma ReplayKeepsSlots(db: Db, events: Events, cfg: PipelineConfig, d: Db)
    requires cfg.batchSize > 0 && !cfg.recordsSlots && RunFrom(db, events, cfg, d)
    ensures d.slots == db.slots
  {
    var cs := Planned(events, cfg);
    if Completes(db, events, cfg, d) {
      ExecTables(db, cs, cfg, d);
    } else {
      var j, k :| 0 <= j < |cs| && 0 <= k <= 4 && Cut(db, cs, cfg, j, k) == Some(d);
      CutTables(db, cs, cfg, j, k, d);
    }
  }

  /** Any number of replays of the same fixture, each resuming from the cursor the one before it left. */
  ghost predicate Restarts(states: seq<Db>, events: Events, n: nat)
    requires n > 0
  {
    states != [] && forall i: nat | i < |states| - 1 :: ReplayedAt(states, events, n, i)
  }

  ghost predicate ReplayedAt(states: seq<Db>, events: Events, n: nat, i: nat)
    requires n > 0 && i < |states| - 1
  {
    RunFrom(states[i], events, ReplayConfig(n, states[i]), states[i + 1])
  }

  /** Beyond each batch boundary every slot is higher than all slots before it. */
  ghost predicate Separated(events: Events, n: nat)
    requires n > 0
  {
    forall k | 0 < k < |Chunks(events, n)| :: SeparatedAt(events, n, k)
  }

  ghost predicate SeparatedAt(events: Events, n: nat, k: nat)
    requires n > 0 && 0 < k < |Chunks(events, n)|
  {
    forall p, s | p in Before(events, n, k) && s in Beyond(events, n, k) :: p.identity.slot < s.identity.slot
  }

  ghost function Before(events: Events, n: nat, k: nat): Events
    requires n > 0 && k <= |Chunks(events, n)|
  {
    Flatten(Chunks(events, n)[..k])
  }

  ghost function Beyond(events: Events, n: nat, k: nat): Events
    requires n > 0 && k <= |Chunks(events, n)|
  {
    Flatten(Chunks(events, n)[k..])
  }

  // ---------------------------------------------------------------- chunks of a suffix

  lemma SplitAt(events: Events, n: nat, k: nat)
    requires n > 0 && k <= |Chunks(events, n)|
    ensures events == Before(events, n, k) + Beyond(events, n, k)
  {
    var cs := Chunks(events, n);
    ChunksFlatten(events, n);
    assert cs == cs[..k] + cs[k..];
    FlattenAppend(cs[..k], cs[k..]);
  }

  lemma {:induction false} ChunksNonEmpty(events: Events, n: nat)
    requires n > 0
    ensures forall i | 0 <= i < |Chunks(events, n)| :: Chunks(events, n)[i] != []
    ensures forall i | 0 <= i < |Chunks(events, n)| - 1 :: |Chunks(events, n)[i]| == n
    decreases |events|
  {
    if |events| > n {
      ChunksNonEmpty(events[n..], n);
      var tail := Chunks(events[n..], n);
      assert Chunks(events, n) == [events[..n]] + tail;
    }
  }

  /** Chunking restarted at a boundary yields the remaining chunks. */
  lemma ChunksOfSuffix(events: Events, n: nat, k: nat)
    requires n > 0 && k <= |Chunks(events, n)|
    ensures Chunks(Beyond(events, n, k), n) == Chunks(events, n)[k..]
  {
    var cs := Chunks(events, n);
    ChunksNonEmpty(events, n);
    SplitAt(events, n, k);
    if k == |cs| {
      assert cs[k..] == [];
    } else {
      ChunksSplit(cs[..k], Beyond(events, n, k), n);
      assert cs == cs[..k] + Chunks(Beyond(events, n, k), n);
    }
  }

  lemma {:induction false} SkipAll(events: Events, cfg: PipelineConfig)
    requires forall e | e in events :: ShouldSkip(e, cfg)
    ensures Accepted(events, cfg) == []
  {
    if events != [] {
      assert events[|events| - 1] in events;
      SkipAll(events[..|events| - 1], cfg);
    }
  }

  lemma {:induction false} SkipNone(events: Events, cfg: PipelineConfig)
    requires forall e | e in events :: !ShouldSkip(e, cfg)
    ensures Accepted(events, cfg) == events
  {
    if events != [] {
      assert events[|events| - 1] in events;
      SkipNone(events[..|events| - 1], cfg);
    }
  }

  // ---------------------------------------------------------------- the state between two replays

  /** What the first run accepts: everything beyond the slot that is stored at its start. */
  ghost function Due(events: Events, n: nat, db: Db): Events {
    Accepted(events, ReplayConfig(n, db))
  }

  /** The stored slot can be read back; otherwise no replay begins. */
  ghost predicate Readable(db: Db) {
    DecodeStored(PersistedOf(db.cursor)).Ok?
  }

  /** Of the events due, `k` batches are behind the cursor and `h`, the same or one more, are in the events table. */
  ghost predicate At(db: Db, start: Db, due: Events, n: nat, k: nat, h: nat)
    requires n > 0
  {
    && k <= h <= k + 1 && h <= |Chunks(due, n)|
    && db.events == InsertAll(start.events, Before(due, n, h))
    && PersistedOf(db.cursor) == Greatest(PersistedOf(start.cursor), Behind(due, n, k))
  }

  /** The cursor after the first `k` batches. */
  ghost function Behind(events: Events, n: nat, k: nat): Option<int>
    requires n > 0 && k <= |Chunks(events, n)|
  {
    var done := Before(events, n, k);
    if done == [] then None else Some(MaxSlot(done))
  }

  lemma MaxSlotAppend(a: Events, b: Events)
    requires b != []
    ensures MaxSlot(a + b) == if a == [] then MaxSlot(b) else Max(MaxSlot(a), MaxSlot(b))
  {
    if a == [] {
      assert a + b == b;
    } else {
      MaxSlotBounds(a);
      MaxSlotBounds(b);
      MaxSlotBounds(a + b);
      assert forall e | e in a || e in b :: e in a + b;
    }
  }

  /** A run that skips all that another one skips accepts what is left of the other one's events. */
  lemma {:induction false} AcceptedOfAccepted(events: Events, first: PipelineConfig, later: PipelineConfig)
    requires forall e | e in events && ShouldSkip(e, first) :: ShouldSkip(e, later)
    ensures Accepted(Accepted(events, first), later) == Accepted(events, later)
  {
    if events != [] {
      var front, last := events[..|events| - 1], events[|events| - 1];
      assert events == front + [last];
      AcceptedOfAccepted(front, first, later);
      var kept := if ShouldSkip(last, first) then [] else [last];
      AcceptedAppend(Accepted(front, first), kept, later);
      assert [last][..0] == [];
      assert last in events;
    }
  }

  /** Between two boundaries the cursor skips what is behind it and nothing beyond. */
  lemma SkipsBehind(db: Db, start: Db, events: Events, n: nat, k: nat, h: nat)
    requires n > 0 && Readable(start) && k <= |Chunks(Due(events, n, start), n)|
    requires Separated(Due(events, n, start), n) && At(db, start, Due(events, n, start), n, k, h)
    ensures var due, cfg := Due(events, n, start), ReplayConfig(n, db);
            && (forall e | e in events && ShouldSkip(e, ReplayConfig(n, start)) :: ShouldSkip(e, cfg))
            && (forall e | e in Before(due, n, k) :: ShouldSkip(e, cfg))
            && (forall e | e in Beyond(due, n, k) :: !ShouldSkip(e, cfg))
  {
    var due := Due(events, n, start);
    var done, rest := Before(due, n, k), Beyond(due, n, k);
    SplitAt(due, n, k);
    AcceptedMembers(events, ReplayConfig(n, start));
    if done != [] {
      MaxSlotBounds(done);
      if rest != [] {
        assert 0 < k < |Chunks(due, n)|;
        assert SeparatedAt(due, n, k);
      }
    }
    forall e | e in rest ensures !ShouldSkip(e, ReplayConfig(n, db)) {
      assert e in due;
    }
  }

  /** What a run resumed in such a state writes: exactly the remaining batches. */
  lemma ResumesAtBoundary(db: Db, start: Db, events: Events, n: nat, k: nat, h: nat)
    requires n > 0 && Readable(start)
    requires Separated(Due(events, n, start), n) && At(db, start, Due(events, n, start), n, k, h)
    ensures Planned(events, ReplayConfig(n, db)) == Chunks(Due(events, n, start), n)[k..]
  {
    var due, cfg := Due(events, n, start), ReplayConfig(n, db);
    var done, rest := Before(due, n, k), Beyond(due, n, k);
    SkipsBehind(db, start, events, n, k, h);
    AcceptedOfAccepted(events, ReplayConfig(n, start), cfg);
    SplitAt(due, n, k);
    AcceptedAppend(done, rest, cfg);
    SkipAll(done, cfg);
    SkipNone(rest, cfg);
    assert Accepted(events, cfg) == rest;
    ChunksOfSuffix(due, n, k);
  }

  /** The cursor row after whole batches of a replay. */
  lemma {:induction false} ExecMovesPersisted(db: Db, batches: seq<Events>, cfg: PipelineConfig, d: Db)
    requires Exec(db, batches, cfg) == Some(d)
    requires forall i | 0 <= i < |batches| :: batches[i] != []
    ensures PersistedOf(d.cursor)
         == if batches == [] then PersistedOf(db.cursor) else Greatest(PersistedOf(db.cursor), Some(MaxSlotOf(batches)))
  {
    if batches != [] {
      var front, last := batches[..|batches| - 1], batches[|batches| - 1];
      var before := Exec(db, front, cfg).value;
      ExecMovesPersisted(db, front, cfg, before);
      BatchMovesPersisted(before, last, cfg, d);
      assert batches == front + [last];
      FlattenSnoc(front, last);
      MaxSlotAppend(Flatten(front), last);
      if front != [] {
        assert Flatten(front) == front[0] + Flatten(front[1..]);
      }
    }
  }

  ghost function MaxSlotOf(batches: seq<Events>): u64
    requires batches != [] && batches[0] != []
  {
    assert Flatten(batches) == batches[0] + Flatten(batches[1..]);
    MaxSlot(Flatten(batches))
  }

  /** The first of the batches `k..m` is already in the table. */
  lemma FirstBatchAgain(start: EventTable, events: Events, n: nat, k: nat, m: nat)
    requires n > 0 && k < m <= |Chunks(events, n)|
    ensures InsertAll(InsertAll(start, Before(events, n, k + 1)), Flatten(Chunks(events, n)[k..m]))
         == InsertAll(InsertAll(start, Before(events, n, k)), Flatten(Chunks(events, n)[k..m]))
  {
    var cs := Chunks(events, n);
    var more := Flatten(cs[k..m]);
    assert cs[..k + 1] == cs[..k] + [cs[k]];
    FlattenSnoc(cs[..k], cs[k]);
    InsertAllAppend(start, Before(events, n, k), cs[k]);
    assert cs[k..m][0] == cs[k];
    assert more == cs[k] + Flatten(cs[k..m][1..]);
    assert more[..|cs[k]|] == cs[k];
    RedeliveryIsInvisible(InsertAll(start, Before(events, n, k)), more, |cs[k]|);
  }

  /** Writing the batches `k..m` again or anew on top of the first `h`. */
  lemma TableFromBoundary(start: EventTable, events: Events, n: nat, k: nat, h: nat, m: nat)
    requires n > 0 && k <= h <= k + 1 && h <= |Chunks(events, n)| && k <= m <= |Chunks(events, n)|
    ensures InsertAll(InsertAll(start, Before(events, n, h)), Flatten(Chunks(events, n)[k..m]))
         == InsertAll(start, Before(events, n, if m > h then m else h))
  {
    var cs := Chunks(events, n);
    if m == k {
      assert cs[k..m] == [];
    } else {
      if h > k { FirstBatchAgain(start, events, n, k, m); }
      assert cs[..m] == cs[..k] + cs[k..m];
      FlattenAppend(cs[..k], cs[k..m]);
      InsertAllAppend(start, Before(events, n, k), Flatten(cs[k..m]));
    }
  }

  lemma CursorFromBoundary(events: Events, n: nat, k: nat, m: nat)
    requires n > 0 && k < m <= |Chunks(events, n)|
    requires Chunks(events, n)[k] != []
    ensures Behind(events, n, m) == Greatest(Behind(events, n, k), Some(MaxSlotOf(Chunks(events, n)[k..m])))
  {
    var cs := Chunks(events, n);
    assert cs[..m] == cs[..k] + cs[k..m];
    FlattenAppend(cs[..k], cs[k..m]);
    assert Flatten(cs[k..m]) == cs[k] + Flatten(cs[k..m][1..]);
    MaxSlotAppend(Flatten(cs[..k]), Flatten(cs[k..m]));
  }

  lemma ExecFromBoundary(db: Db, start: Db, due: Events, n: nat, k: nat, h: nat, m: nat, cfg: PipelineConfig, d: Db)
    requires n > 0 && At(db, start, due, n, k, h) && k <= m <= |Chunks(due, n)| && !cfg.recordsSlots
    requires Exec(db, Chunks(due, n)[k..m], cfg) == Some(d)
    ensures At(d, start, due, n, m, if m > h then m else h)
  {
    ExecTables(db, Chunks(due, n)[k..m], cfg, d);
    TableFromBoundary(start.events, due, n, k, h, m);
    PersistedFromBoundary(db, start, due, n, k, m, cfg, d);
  }

  lemma PersistedFromBoundary(db: Db, start: Db, due: Events, n: nat, k: nat, m: nat, cfg: PipelineConfig, d: Db)
    requires n > 0 && k <= m <= |Chunks(due, n)| && Exec(db, Chunks(due, n)[k..m], cfg) == Some(d)
    requires PersistedOf(db.cursor) == Greatest(PersistedOf(start.cursor), Behind(due, n, k))
    ensures PersistedOf(d.cursor) == Greatest(PersistedOf(start.cursor), Behind(due, n, m))
  {
    ChunksNonEmpty(due, n);
    ExecMovesPersisted(db, Chunks(due, n)[k..m], cfg, d);
    if k < m { CursorFromBoundary(due, n, k, m); }
  }

  /** The first two effects of one more batch. */
  lemma PartFromBoundary(db: Db, start: Db, due: Events, n: nat, k: nat, h: nat, i: nat, cfg: PipelineConfig, d: Db)
    requires n > 0 && At(db, start, due, n, k, h) && k < |Chunks(due, n)| && !cfg.recordsSlots
    requires i <= 4 && After(db, Chunks(due, n)[k], cfg, i) == Some(d)
    ensures At(d, start, due, n, if i >= 2 then k + 1 else k, if i >= 1 then k + 1 else h)
  {
    var cs := Chunks(due, n);
    ChunksNonEmpty(due, n);
    AfterTables(db, cs[k], cfg, i, d);
    PartMovesPersisted(db, cs[k], cfg, i, d);
    assert cs[k..k + 1] == [cs[k]];
    FlattenOne(cs[k]);
    if i >= 1 { TableFromBoundary(start.events, due, n, k, h, k + 1); }
    if i >= 2 { CursorFromBoundary(due, n, k, k + 1); }
  }

  lemma PartMovesPersisted(db: Db, batch: Events, cfg: PipelineConfig, i: nat, d: Db)
    requires batch != [] && i <= 4 && !cfg.recordsSlots && After(db, batch, cfg, i) == Some(d)
    ensures PersistedOf(d.cursor)
         == if i >= 2 then Greatest(PersistedOf(db.cursor), Some(MaxSlot(batch))) else PersistedOf(db.cursor)
  {
    if i > 0 {
      PartMovesPersisted(db, batch, cfg, i - 1, After(db, batch, cfg, i - 1).value);
    }
  }

  lemma CutKeepsBoundary(db: Db, start: Db, due: Events, n: nat, k: nat, h: nat, j: nat, i: nat, cfg: PipelineConfig,
                         d: Db)
    returns (k': nat, h': nat)
    requires n > 0 && At(db, start, due, n, k, h) && !cfg.recordsSlots && i <= 4
    requires k + j < |Chunks(due, n)| && Cut(db, Chunks(due, n)[k..], cfg, j, i) == Some(d)
    ensures At(d, start, due, n, k', h')
  {
    var cs := Chunks(due, n);
    assert cs[k..][..j] == cs[k..k + j] && cs[k..][j] == cs[k + j];
    var mid := Exec(db, cs[k..k + j], cfg).value;
    ExecFromBoundary(db, start, due, n, k, h, k + j, cfg, mid);
    var h1 := if k + j > h then k + j else h;
    PartFromBoundary(mid, start, due, n, k + j, h1, i, cfg, d);
    k' := if i >= 2 then k + j + 1 else k + j;
    h' := if i >= 1 then k + j + 1 else h1;
  }

  lemma RunKeepsBoundary(db: Db, start: Db, events: Events, n: nat, k: nat, h: nat, d: Db)
    returns (k': nat, h': nat)
    requires n > 0 && Readable(start)
    requires Separated(Due(events, n, start), n) && At(db, start, Due(events, n, start), n, k, h)
    requires RunFrom(db, events, ReplayConfig(n, db), d)
    ensures At(d, start, Due(events, n, start), n, k', h')
    ensures Completes(db, events, ReplayConfig(n, db), d) ==> k' == h' == |Chunks(Due(events, n, start), n)|
  {
    var due, cfg := Due(events, n, start), ReplayConfig(n, db);
    var cs := Chunks(due, n);
    ResumesAtBoundary(db, start, events, n, k, h);
    if Completes(db, events, cfg, d) {
      assert cs[k..] == cs[k..|cs|];
      ExecFromBoundary(db, start, due, n, k, h, |cs|, cfg, d);
      k', h' := |cs|, |cs|;
    } else {
      var j, i :| 0 <= j < |cs[k..]| && 0 <= i <= 4 && Cut(db, cs[k..], cfg, j, i) == Some(d);
      k', h' := CutKeepsBoundary(db, start, due, n, k, h, j, i, cfg, d);
    }
  }

  lemma {:induction false} RestartsKeepBoundary(states: seq<Db>, events: Events, n: nat, i: nat)
    returns (k: nat, h: nat)
    requires n > 0 && Restarts(states, events, n) && i < |states|
    requires Readable(states[0]) && Separated(Due(events, n, states[0]), n)
    ensures At(states[i], states[0], Due(events, n, states[0]), n, k, h)
  {
    if i == 0 {
      k, h := 0, 0;
      assert Chunks(Due(events, n, states[0]), n)[..0] == [];
      assert Before(Due(events, n, states[0]), n, 0) == [];
    } else {
      k, h := RestartsKeepBoundary(states, events, n, i - 1);
      assert ReplayedAt(states, events, n, i - 1);
      k, h := RunKeepsBoundary(states[i - 1], states[0], events, n, k, h, states[i]);
    }
  }

  /**
   From any stored slot: where the events due do not straddle boundaries, any restarts end with the table of one
   uninterrupted run.
   */
  lemma ResumeIsComplete(states: seq<Db>, events: Events, n: nat, d: Db)
    requires n > 0 && Restarts(states, events, n)
    requires Readable(states[0]) && Separated(Due(events, n, states[0]), n)
    requires Completes(states[|states| - 1], events, ReplayConfig(n, states[|states| - 1]), d)
    ensures d.events == InsertAll(states[0].events, Due(events, n, states[0]))
  {
    var last, due := states[|states| - 1], Due(events, n, states[0]);
    var k, h := RestartsKeepBoundary(states, events, n, |states| - 1);
    k, h := RunKeepsBoundary(last, states[0], events, n, k, h, d);
    var cs := Chunks(due, n);
    assert cs[..|cs|] == cs;
    ChunksFlatten(due, n);
  }

  // ---------------------------------------------------------------- the condition is exact

  ghost predicate Distinct(events: Events) {
    forall i, j | 0 <= i < j < |events| :: events[i].identity != events[j].identity
  }

  lemma InRangeBatchCompletes(db: Db, batch: Events, cfg: PipelineConfig)
    requires !cfg.recordsSlots && forall e | e in batch :: EventStorable(e)
    ensures After(db, batch, cfg, 4).Some?
  {
    if batch != [] { MaxSlotBounds(batch); }
    assert After(db, batch, cfg, 0) == Some(db);
    var one := Effect(db, batch, cfg, 0).value;
    assert After(db, batch, cfg, 1) == Some(one);
    var two := Effect(one, batch, cfg, 1).value;
    assert After(db, batch, cfg, 2) == Some(two);
    assert After(db, batch, cfg, 3) == Some(two);
  }

  /** With every slot in range a replay never fails of itself. */
  lemma {:induction false} InRangeCompletes(db: Db, batches: seq<Events>, cfg: PipelineConfig)
    requires !cfg.recordsSlots
    requires forall b, e | b in batches && e in b :: EventStorable(e)
    ensures Exec(db, batches, cfg).Some?
  {
    if batches != [] {
      var front, last := batches[..|batches| - 1], batches[|batches| - 1];
      assert last in batches;
      assert forall b | b in front :: b in batches;
      InRangeCompletes(db, front, cfg);
      var mid := Exec(db, front, cfg).value;
      InRangeBatchCompletes(mid, last, cfg);
    }
  }

  lemma {:induction false} ChunkMembers(events: Events, n: nat)
    requires n > 0
    ensures forall b, e | b in Chunks(events, n) && e in b :: e in events
    decreases |events|
  {
    if |events| > n {
      ChunkMembers(events[n..], n);
      assert Chunks(events, n) == [events[..n]] + Chunks(events[n..], n);
    }
  }

  lemma {:induction false} AcceptedMembers(events: Events, cfg: PipelineConfig)
    ensures forall e | e in Accepted(events, cfg) :: e in events && !ShouldSkip(e, cfg)
  {
    if events != [] {
      AcceptedMembers(events[..|events| - 1], cfg);
      assert events == events[..|events| - 1] + [events[|events| - 1]];
    }
  }

  lemma {:induction false} TableMembers(t: EventTable, es: Events, id: EventIdentity)
    requires id in InsertAll(t, es) && id !in t
    ensures exists e :: e in es && e.identity == id
  {
    if es != [] {
      var front, last := es[..|es| - 1], es[|es| - 1];
      assert es == front + [last];
      if id in InsertAll(t, front) {
        TableMembers(t, front, id);
        var e :| e in front && e.identity == id;
        assert e in es;
      } else {
        assert last in es;
      }
    }
  }

  lemma DistinctMembers(events: Events, a: NormalizedEvent, b: NormalizedEvent)
    requires Distinct(events) && a in events && b in events && a.identity == b.identity
    ensures a == b
  {
    var i :| 0 <= i < |events| && events[i] == a;
    var j :| 0 <= j < |events| && events[j] == b;
  }

  /** The state right after the cursor has passed the `k`-th boundary. */
  lemma StopAtBoundary(db: Db, events: Events, n: nat, k: nat) returns (mid: Db)
    requires n > 0 && 0 < k < |Chunks(Due(events, n, db), n)|
    requires forall e | e in Due(events, n, db) :: EventStorable(e)
    ensures var due := Due(events, n, db);
            && Stopped(db, events, ReplayConfig(n, db), mid)
            && mid.events == InsertAll(db.events, Before(due, n, k)) && Before(due, n, k) != []
            && PersistedOf(mid.cursor) == Greatest(PersistedOf(db.cursor), Some(MaxSlot(Before(due, n, k))))
  {
    var cs := Chunks(Due(events, n, db), n);
    var cfg := ReplayConfig(n, db);
    ChunkMembers(Due(events, n, db), n);
    assert forall b | b in cs[..k] :: b in cs;
    InRangeCompletes(db, cs[..k], cfg);
    mid := Exec(db, cs[..k], cfg).value;
    assert Cut(db, cs, cfg, k, 0) == Some(mid);
    ChunksNonEmpty(Due(events, n, db), n);
    ExecTables(db, cs[..k], cfg, mid);
    ExecMovesPersisted(db, cs[..k], cfg, mid);
    assert Flatten(cs[..k]) == cs[0] + Flatten(cs[..k][1..]);
  }

  lemma ReplayCompletes(db: Db, events: Events, n: nat) returns (d: Db)
    requires n > 0 && forall e | e in Due(events, n, db) :: EventStorable(e)
    ensures Completes(db, events, ReplayConfig(n, db), d)
    ensures d.events == InsertAll(db.events, Due(events, n, db))
  {
    var cfg := ReplayConfig(n, db);
    ChunkMembers(Due(events, n, db), n);
    InRangeCompletes(db, Planned(events, cfg), cfg);
    d := Exec(db, Planned(events, cfg), cfg).value;
    ExecTables(db, Planned(events, cfg), cfg, d);
    ChunksFlatten(Due(events, n, db), n);
  }

  /** What is neither in the table nor delivered stays out of it. */
  lemma NotDelivered(t: EventTable, events: Events, es: Events, s: NormalizedEvent)
    requires Distinct(events) && s in events && s.identity !in t
    requires forall e | e in es :: e in events && e != s
    ensures s.identity !in InsertAll(t, es)
  {
    if s.identity in InsertAll(t, es) {
      TableMembers(t, es, s.identity);
      var e :| e in es && e.identity == s.identity;
      DistinctMembers(events, e, s);
    }
  }

  lemma DistinctParts(events: Events, done: Events, rest: Events, s: NormalizedEvent)
    requires Distinct(events) && events == done + rest && s in rest
    ensures s in events && forall e | e in done :: e in events && e != s
  {
    var j :| 0 <= j < |rest| && rest[j] == s;
    assert events[|done| + j] == s;
    forall e | e in done ensures e in events && e != s {
      var i :| 0 <= i < |done| && done[i] == e;
      assert events[i] == e;
    }
  }

  lemma BeyondIsNotBefore(events: Events, n: nat, k: nat, s: NormalizedEvent)
    requires n > 0 && k <= |Chunks(events, n)| && Distinct(events) && s in Beyond(events, n, k)
    ensures s in events && forall e | e in Before(events, n, k) :: e in events && e != s
  {
    SplitAt(events, n, k);
    DistinctParts(events, Before(events, n, k), Beyond(events, n, k), s);
  }

  lemma SkippedForGood(db: Db, due: Events, cfg: PipelineConfig, s: NormalizedEvent)
    requires Distinct(due) && s in due && s.identity !in db.events && ShouldSkip(s, cfg)
    ensures s.identity !in InsertAll(db.events, Accepted(due, cfg))
  {
    AcceptedMembers(due, cfg);
    NotDelivered(db.events, due, Accepted(due, cfg), s);
  }

  /** A later run of the same replay accepts only events that were due at its start. */
  lemma DueLater(db: Db, mid: Db, events: Events, n: nat)
    requires n > 0 && Readable(db) && Readable(mid) && AtMost(PersistedOf(db.cursor), PersistedOf(mid.cursor))
    ensures Due(events, n, mid) == Accepted(Due(events, n, db), ReplayConfig(n, mid))
  {
    AcceptedOfAccepted(events, ReplayConfig(n, db), ReplayConfig(n, mid));
  }

  /** What a run stopped right behind a boundary can no longer deliver. */
  lemma LostBehindBoundary(db: Db, mid: Db, events: Events, n: nat, k: nat, s: NormalizedEvent)
    requires n > 0 && Readable(db) && Readable(mid) && Distinct(Due(events, n, db))
    requires k <= |Chunks(Due(events, n, db), n)| && s in Beyond(Due(events, n, db), n, k)
    requires AtMost(PersistedOf(db.cursor), PersistedOf(mid.cursor)) && ShouldSkip(s, ReplayConfig(n, mid))
    requires s.identity !in db.events && mid.events == InsertAll(db.events, Before(Due(events, n, db), n, k))
    ensures s in Due(events, n, db) && s.identity !in InsertAll(mid.events, Due(events, n, mid))
    ensures forall e | e in Due(events, n, mid) :: e in Due(events, n, db)
  {
    var due := Due(events, n, db);
    BeyondIsNotBefore(due, n, k, s);
    NotDelivered(db.events, due, Before(due, n, k), s);
    DueLater(db, mid, events, n);
    SkippedForGood(mid, due, ReplayConfig(n, mid), s);
    AcceptedMembers(due, ReplayConfig(n, mid));
  }

  /** From any stored slot: a slot due that straddles a boundary is lost if the run stops right behind it. */
  lemma StraddleLoses(db: Db, events: Events, n: nat, k: nat, p: NormalizedEvent, s: NormalizedEvent)
    returns (states: seq<Db>, d: Db)
    requires n > 0 && Readable(db) && Distinct(Due(events, n, db))
    requires forall e | e in Due(events, n, db) :: EventStorable(e) && e.identity !in db.events
    requires 0 < k < |Chunks(Due(events, n, db), n)|
    requires p in Before(Due(events, n, db), n, k) && s in Beyond(Due(events, n, db), n, k)
    requires s.identity.slot <= p.identity.slot
    ensures Restarts(states, events, n) && states[0] == db
    ensures Completes(states[|states| - 1], events, ReplayConfig(n, states[|states| - 1]), d)
    ensures s.identity !in d.events && s.identity in InsertAll(db.events, Due(events, n, db))
  {
    var mid := StopAtBoundary(db, events, n, k);
    states := [db, mid];
    assert ReplayedAt(states, events, n, 0);
    BeyondIsNotBefore(Due(events, n, db), n, k, s);
    SkippedBehind(db, mid, events, n, k, p, s);
    LostBehindBoundary(db, mid, events, n, k, s);
    d := ReplayCompletes(mid, events, n);
    DeliveredIsThere(db.events, Due(events, n, db));
  }

  lemma SkippedBehind(db: Db, mid: Db, events: Events, n: nat, k: nat, p: NormalizedEvent, s: NormalizedEvent)
    requires n > 0 && Readable(db) && k <= |Chunks(Due(events, n, db), n)|
    requires p in Before(Due(events, n, db), n, k) && s.identity.slot <= p.identity.slot
    requires PersistedOf(mid.cursor)
          == Greatest(PersistedOf(db.cursor), Some(MaxSlot(Before(Due(events, n, db), n, k))))
    ensures Readable(mid) && ShouldSkip(s, ReplayConfig(n, mid))
    ensures AtMost(PersistedOf(db.cursor), PersistedOf(mid.cursor))
  {
    MaxSlotBounds(Before(Due(events, n, db), n, k));
  }

  /** Every sequence of restarts that ends in a completed run leaves the table of one uninterrupted run. */
  ghost predicate ResumeLosesNothing(db: Db, events: Events, n: nat)
    requires n > 0
  {
    forall states, d | Restarts(states, events, n) && states[0] == db
                       && Completes(states[|states| - 1], events, ReplayConfig(n, states[|states| - 1]), d) ::
      d.events == InsertAll(db.events, Due(events, n, db))
  }

  /**
   From any stored slot, for distinct events due that are new: resuming by slot is lossless exactly when no slot due
   straddles a boundary.
   */
  lemma ResumeLosesNothingIff(db: Db, events: Events, n: nat)
    requires n > 0 && Readable(db) && Distinct(Due(events, n, db))
    requires forall e | e in Due(events, n, db) :: EventStorable(e) && e.identity !in db.events
    ensures ResumeLosesNothing(db, events, n) <==> Separated(Due(events, n, db), n)
  {
    var due := Due(events, n, db);
    if Separated(due, n) {
      forall states, d | Restarts(states, events, n) && states[0] == db
                         && Completes(states[|states| - 1], events, ReplayConfig(n, states[|states| - 1]), d)
        ensures d.events == InsertAll(db.events, due)
      {
        ResumeIsComplete(states, events, n, d);
      }
    } else {
      var k :| 0 < k < |Chunks(due, n)| && !SeparatedAt(due, n, k);
      var p, s :| p in Before(due, n, k) && s in Beyond(due, n, k) && s.identity.slot <= p.identity.slot;
      var states, d := StraddleLoses(db, events, n, k, p, s);
    }
  }

  lemma RisingParts(events: Events, done: Events, rest: Events)
    requires forall i, j | 0 <= i < j < |events| :: events[i].identity.slot < events[j].identity.slot
    requires events == done + rest
    ensures forall p, s | p in done && s in rest :: p.identity.slot < s.identity.slot
  {
    forall p, s | p in done && s in rest ensures p.identity.slot < s.identity.slot {
      var i :| 0 <= i < |done| && done[i] == p;
      var j :| 0 <= j < |rest| && rest[j] == s;
      assert events[i] == p && events[|done| + j] == s;
    }
  }

  /** Strictly rising slots never straddle a boundary, whatever the batch size. */
  lemma RisingSlotsSeparate(events: Events, n: nat)
    requires n > 0 && forall i, j | 0 <= i < j < |events| :: events[i].identity.slot < events[j].identity.slot
    ensures Separated(events, n)
  {
    forall k | 0 < k < |Chunks(events, n)| ensures SeparatedAt(events, n, k) {
      SplitAt(events, n, k);
      RisingParts(events, Before(events, n, k), Beyond(events, n, k));
    }
  }

  // ---------------------------------------------------------------- full redelivery

  /** Slot resume off and a positive batch size; everything else may differ from run to run. */
  ghost predicate FullRuns(cfgs: seq<PipelineConfig>) {
    forall i | 0 <= i < |cfgs| :: cfgs[i].batchSize > 0 && !cfgs[i].useSlotResume
  }

  /** Any number of runs over the same events, the `i`-th of them from the `i`-th state. */
  ghost predicate Redeliveries(states: seq<Db>, events: Events, cfgs: seq<PipelineConfig>)
    requires FullRuns(cfgs)
  {
    states != [] && |cfgs| == |states| && forall i: nat | i < |states| - 1 :: RanAt(states, events, cfgs, i)
  }

  ghost predicate RanAt(states: seq<Db>, events: Events, cfgs: seq<PipelineConfig>, i: nat)
    requires |cfgs| == |states| && i < |states| - 1 && cfgs[i].batchSize > 0
  {
    RunFrom(states[i], events, cfgs[i], states[i + 1])
  }

  /** The events of the first `m` batches are the events of some prefix. */
  lemma BatchesArePrefix(events: Events, n: nat, m: nat) returns (cut: nat)
    requires n > 0 && m <= |Chunks(events, n)|
    ensures cut <= |events| && events[..cut] == Flatten(Chunks(events, n)[..m])
  {
    PrefixOfInput(events, n, m);
    cut := |Flatten(Chunks(events, n)[..m])|;
  }

  /** A run, completed or stopped, leaves the events of some prefix and the slot reports of some prefix. */
  lemma RunLeavesPrefixes(db: Db, events: Events, cfg: PipelineConfig, d: Db) returns (cut: nat, recorded: nat)
    requires cfg.batchSize > 0 && !cfg.useSlotResume && RunFrom(db, events, cfg, d)
    ensures cut <= |events| && d.events == InsertAll(db.events, events[..cut])
    ensures recorded <= |events| && d.slots == UpsertAll(db.slots, SlotStates(events[..recorded]))
  {
    NothingSkipped(events, cfg);
    var cs := Chunks(events, cfg.batchSize);
    if Completes(db, events, cfg, d) {
      ExecTables(db, cs, cfg, d);
      assert cs[..|cs|] == cs;
      cut := BatchesArePrefix(events, cfg.batchSize, |cs|);
      recorded := cut;
    } else {
      var j, k :| 0 <= j < |cs| && 0 <= k <= 4 && Cut(db, cs, cfg, j, k) == Some(d);
      CutTables(db, cs, cfg, j, k, d);
      cut := BatchesArePrefix(events, cfg.batchSize, if k >= 1 then j + 1 else j);
      recorded := BatchesArePrefix(events, cfg.batchSize, if k >= 3 then j + 1 else j);
    }
    if !cfg.recordsSlots {
      recorded := 0;
      assert events[..0] == [];
    }
  }

  lemma ReportsOfPrefix(events: Events, n: nat)
    requires n <= |events|
    ensures SlotStates(events[..n]) <= SlotStates(events)
  {
    assert events == events[..n] + events[n..];
    SlotStatesAppend(events[..n], events[n..]);
  }

  /** Full delivery leads from `db` to the tables to which it leads from `start`. */
  ghost predicate LeadsAlike(db: Db, start: Db, events: Events) {
    && InsertAll(db.events, events) == InsertAll(start.events, events)
    && UpsertAll(db.slots, SlotStates(events)) == UpsertAll(start.slots, SlotStates(events))
  }

  lemma RunLeadsAlike(db: Db, start: Db, events: Events, cfg: PipelineConfig, d: Db)
    requires cfg.batchSize > 0 && !cfg.useSlotResume && RunFrom(db, events, cfg, d) && LeadsAlike(db, start, events)
    ensures LeadsAlike(d, start, events)
  {
    var cut, recorded := RunLeavesPrefixes(db, events, cfg, d);
    RedeliveryIsInvisible(db.events, events, cut);
    ReportsOfPrefix(events, recorded);
    PartIsAbsorbed(db.slots, SlotStates(events[..recorded]), SlotStates(events));
  }

  lemma NextLeadsAlike(states: seq<Db>, events: Events, cfgs: seq<PipelineConfig>, i: nat, start: Db)
    requires FullRuns(cfgs) && Redeliveries(states, events, cfgs) && i + 1 < |states|
    requires LeadsAlike(states[i], start, events)
    ensures LeadsAlike(states[i + 1], start, events)
  {
    assert RanAt(states, events, cfgs, i);
    RunLeadsAlike(states[i], start, events, cfgs[i], states[i + 1]);
  }

  lemma {:induction false} RedeliveriesLeadAlike(states: seq<Db>, events: Events, cfgs: seq<PipelineConfig>, i: nat)
    requires FullRuns(cfgs) && Redeliveries(states, events, cfgs) && i < |states|
    ensures LeadsAlike(states[i], states[0], events)
  {
    if i > 0 {
      RedeliveriesLeadAlike(states, events, cfgs, i - 1);
      NextLeadsAlike(states, events, cfgs, i - 1, states[0]);
    }
  }

  /**
   With slot resume off, a run that completes after any crashes, under any configurations and batch sizes, leaves the
   events table and, if it records slots, the slot table of one uninterrupted run, for any slots and any reports.
   */
  lemma RedeliveryIsComplete(states: seq<Db>, events: Events, cfgs: seq<PipelineConfig>, d: Db)
    requires FullRuns(cfgs) && Redeliveries(states, events, cfgs)
    requires Completes(states[|states| - 1], events, cfgs[|states| - 1], d)
    ensures d.events == InsertAll(states[0].events, events)
    ensures cfgs[|states| - 1].recordsSlots ==> d.slots == UpsertAll(states[0].slots, SlotStates(events))
  {
    RedeliveriesLeadAlike(states, events, cfgs, |states| - 1);
    CompleteTables(states[|states| - 1], events, cfgs[|states| - 1], d);
  }

  lemma CompleteTables(db: Db, events: Events, cfg: PipelineConfig, d: Db)
    requires cfg.batchSize > 0 && !cfg.useSlotResume && Completes(db, events, cfg, d)
    ensures d.events == InsertAll(db.events, events)
    ensures cfg.recordsSlots ==> d.slots == UpsertAll(db.slots, SlotStates(events))
  {
    NothingSkipped(events, cfg);
    ExecTables(db, Chunks(events, cfg.batchSize), cfg, d);
    ChunksFlatten(events, cfg.batchSize);
  }
}
