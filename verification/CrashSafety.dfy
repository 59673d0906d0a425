/**
 Every database state that any number of runs, in any mode, can leave behind: runs may stop between any two
 durable effects and be started again, while other streams keep inserting into the shared events table.
 */
module CrashSafety {
  import opened Base
  import opened EventIdentities
  import opened SlotChain
  import opened SlotTables
  import opened Storage
  import opened Pipeline

  /** `Mid(cfg, batch, k)`: the first `k` effects of the batch have taken place. */
  datatype Process = Down | Idle(cfg: PipelineConfig) | Mid(cfg: PipelineConfig, batch: seq<NormalizedEvent>, k: nat)

  /** `boot` remembers the slot from which the first watermark was computed. */
  datatype World = World(db: Db, process: Process, boot: Option<int>)

  ghost predicate Init(w: World) {
    w.db.cursor == None && w.db.slots == map[] && w.process == Down && w.boot == None
  }

  ghost predicate StartUp(w: World, w': World) {
    w.process.Down? && w'.process.Idle? && w' == w.(process := w'.process)
  }

  ghost predicate BeginBatch(w: World, w': World) {
    && w.process.Idle? && w'.process.Mid?
    && w'.process.cfg == w.process.cfg && w'.process.batch != [] && w'.process.k == 0
    && w' == w.(process := w'.process)
  }

  ghost predicate TakeEffect(w: World, w': World) {
    && w.process.Mid? && w.process.k < 4
    && Effect(w.db, w.process.batch, w.process.cfg, w.process.k) == Some(w'.db)
    && w'.process == w.process.(k := w.process.k + 1)
    && w'.boot == if Stored(w.db.cursor).None? && Stored(w'.db.cursor).Some? then Seed(None, w.db.slots) else w.boot
  }

  ghost predicate FinishBatch(w: World, w': World) {
    w.process.Mid? && w.process.k == 4 && w' == w.(process := Idle(w.process.cfg))
  }

  /** A crash, an error, or an orderly end. */
  ghost predicate Stop(w: World, w': World) {
    w' == w.(process := Down)
  }

  ghost predicate OtherStream(w: World, w': World) {
    exists es :: w' == w.(db := w.db.(events := InsertAll(w.db.events, es)))
  }

  ghost predicate Next(w: World, w': World) {
    StartUp(w, w') || BeginBatch(w, w') || TakeEffect(w, w') || FinishBatch(w, w') || Stop(w, w') || OtherStream(w, w')
  }

  ghost predicate History(trace: seq<World>) {
    trace != [] && Init(trace[0]) && forall i | 0 <= i < |trace| - 1 :: Next(trace[i], trace[i + 1])
  }

  // ---------------------------------------------------------------- what is always true

  ghost predicate HasFinalizedEvent(events: EventTable, slot: int) {
    exists id: EventIdentity :: id in events && id.Slot? && id.slot == slot && id.status == Finalized
  }

  ghost predicate RowsBacked(db: Db) {
    forall s | s in FinalizedParents(db.slots) ::
      && db.cursor.Some? && 0 <= s <= db.cursor.value.persisted
      && HasFinalizedEvent(db.events, s)
  }

  ghost predicate CursorsOrdered(db: Db) {
    db.cursor.Some? ==>
      var c := db.cursor.value;
      && AtMost(c.contiguous, c.finalizedHead) && AtMost(c.finalizedHead, Some(c.persisted))
      && 0 <= c.persisted <= MAX_I64
      && (c.contiguous.Some? ==> c.contiguous.value in FinalizedParents(db.slots))
      && (c.finalizedHead.Some? ==> c.finalizedHead.value in FinalizedParents(db.slots))
  }

  ghost predicate Safe(db: Db) {
    RowsBacked(db) && CursorsOrdered(db)
  }

  ghost predicate BatchStored(db: Db, batch: seq<NormalizedEvent>) {
    forall e | e in batch && EventStorable(e) :: e.identity in db.events
  }

  ghost predicate BatchBelowCursor(db: Db, batch: seq<NormalizedEvent>) {
    db.cursor.Some? && forall e | e in batch :: e.identity.slot <= db.cursor.value.persisted
  }

  ghost predicate Inv(w: World) {
    && Safe(w.db)
    && (w.process.Mid? ==>
          && w.process.batch != [] && w.process.k <= 4
          && (w.process.k >= 1 ==> BatchStored(w.db, w.process.batch))
          && (w.process.k >= 2 ==> BatchBelowCursor(w.db, w.process.batch)))
  }

  lemma InsertKeepsInv(w: World, w': World, es: seq<NormalizedEvent>)
    requires Inv(w) && w' == w.(db := w.db.(events := InsertAll(w.db.events, es)))
    ensures Inv(w')
  {
    TableGrows(w.db.events, es);
    forall s | s in FinalizedParents(w.db.slots) ensures HasFinalizedEvent(w'.db.events, s) {
      var id: EventIdentity :| id in w.db.events && id.Slot? && id.slot == s && id.status == Finalized;
      assert id in w'.db.events;
    }
  }

  lemma EventsKeepInv(w: World, w': World)
    requires Inv(w) && TakeEffect(w, w') && w.process.k == 0
    ensures Inv(w')
  {
    InsertKeepsInv(w, w.(db := w'.db), w.process.batch);
    DeliveredIsThere(w.db.events, w.process.batch);
  }

  lemma CursorKeepsInv(w: World, w': World)
    requires Inv(w) && TakeEffect(w, w') && w.process.k == 1
    ensures Inv(w')
  {
    MaxSlotBounds(w.process.batch);
  }

  lemma RowsKeepInv(w: World, w': World)
    requires Inv(w) && TakeEffect(w, w') && w.process.k == 2
    ensures Inv(w')
  {
    var batch := w.process.batch;
    var states := SlotStates(batch);
    if w'.db != w.db {
      forall s | s in FinalizedParents(w'.db.slots)
        ensures 0 <= s <= w.db.cursor.value.persisted && HasFinalizedEvent(w.db.events, s)
      {
        if s !in FinalizedParents(w.db.slots) {
          var i := ReportingEvent(w.db.slots, batch, s);
          assert batch[i].identity in w.db.events;
        }
      }
      forall s | s in FinalizedParents(w.db.slots) ensures s in FinalizedParents(w'.db.slots) {
        FlagsAfter(w.db.slots, states, s);
      }
    }
  }

  lemma NewWatermark(anchor: Option<int>, t: SlotTable)
    requires anchor.Some? ==> anchor.value in FinalizedParents(t)
    ensures Watermark(anchor, t).Some? <==> FinalizedParents(t).Keys != {}
    ensures Watermark(anchor, t).Some? ==>
              && Watermark(anchor, t).value in FinalizedParents(t)
              && Seed(anchor, t).value in FinalizedParents(t) && Seed(anchor, t).value <= Watermark(anchor, t).value
              && Linked(FinalizedParents(t), Seed(anchor, t).value, Watermark(anchor, t).value)
  {
    var m := FinalizedParents(t);
    var seed := Seed(anchor, t);
    if seed.Some? {
      assert anchor.None? ==> seed == LowestFinalized(t);
      assert seed.value in m.Keys;
      assert Up(m, seed.value, 0) == Some(seed.value);
      assert seed.value in Chain(m, seed.value);
      assert ChainMax(m, seed.value) in Chain(m, seed.value);
    }
  }

  lemma WatermarkKeepsInv(w: World, w': World)
    requires Inv(w) && TakeEffect(w, w') && w.process.k == 3
    ensures Inv(w')
  {
    if w'.db != w.db {
      NewWatermark(Stored(w.db.cursor), w.db.slots);
      assert w'.db.cursor == Some(Advanced(w.db.cursor, w.db.slots));
    }
  }

  lemma NextKeepsInv(w: World, w': World)
    requires Inv(w) && Next(w, w')
    ensures Inv(w')
  {
    if OtherStream(w, w') {
      var es :| w' == w.(db := w.db.(events := InsertAll(w.db.events, es)));
      InsertKeepsInv(w, w', es);
    } else if TakeEffect(w, w') {
      if w.process.k == 0 { EventsKeepInv(w, w'); }
      else if w.process.k == 1 { CursorKeepsInv(w, w'); }
      else if w.process.k == 2 { RowsKeepInv(w, w'); }
      else { WatermarkKeepsInv(w, w'); }
    }
  }

  lemma {:induction false} HistoryKeepsInv(trace: seq<World>, i: nat)
    requires History(trace) && i < |trace|
    ensures Inv(trace[i])
  {
    if i > 0 {
      HistoryKeepsInv(trace, i - 1);
      NextKeepsInv(trace[i - 1], trace[i]);
    }
  }

  /**
   In every reachable state: contiguous watermark <= finalized head <= persisted slot; the watermark is a finalized
   row; every finalized row has its Slot/Finalized event; and the stored frontier can be read back.
   */
  lemma EveryReachableStateIsSafe(trace: seq<World>, i: nat)
    requires History(trace) && i < |trace|
    ensures Safe(trace[i].db)
    ensures trace[i].db.cursor.Some? ==> DecodeFrontier(trace[i].db.cursor.value).Ok?
  {
    HistoryKeepsInv(trace, i);
  }

  // ---------------------------------------------------------------- nothing ever goes back

  ghost predicate Grown(a: Db, b: Db) {
    && (a.cursor.Some? ==> b.cursor.Some?)
    && AtMost(PersistedOf(a.cursor), PersistedOf(b.cursor))
    && AtMost(Stored(a.cursor), Stored(b.cursor))
    && (a.cursor.Some? ==> AtMost(a.cursor.value.finalizedHead, b.cursor.value.finalizedHead))
    && (forall id | id in a.events :: id in b.events && b.events[id] == a.events[id])
    && (forall s | s in FinalizedParents(a.slots) :: s in FinalizedParents(b.slots))
  }

  lemma EffectGrows(db: Db, batch: seq<NormalizedEvent>, cfg: PipelineConfig, k: nat, db': Db)
    requires k < 4 && Effect(db, batch, cfg, k) == Some(db')
    ensures Grown(db, db')
  {
    if k == 0 {
      TableGrows(db.events, batch);
    } else if k == 2 && db' != db {
      forall s | s in FinalizedParents(db.slots) ensures s in FinalizedParents(db'.slots) {
        FlagsAfter(db.slots, SlotStates(batch), s);
      }
    }
  }

  lemma NextGrows(w: World, w': World)
    requires Next(w, w')
    ensures Grown(w.db, w'.db)
  {
    if OtherStream(w, w') {
      var es :| w' == w.(db := w.db.(events := InsertAll(w.db.events, es)));
      TableGrows(w.db.events, es);
    } else if TakeEffect(w, w') {
      EffectGrows(w.db, w.process.batch, w.process.cfg, w.process.k, w'.db);
    }
  }

  /** Across crashes and restarts all three cursors, the events and the finalized rows only grow. */
  lemma {:induction false} CursorsOnlyGrow(trace: seq<World>, i: nat, j: nat)
    requires History(trace) && i <= j < |trace|
    ensures Grown(trace[i].db, trace[j].db)
  {
    if i < j {
      CursorsOnlyGrow(trace, i, j - 1);
      NextGrows(trace[j - 1], trace[j]);
    }
  }

  // ---------------------------------------------------------------- the watermark hangs together

  ghost predicate ReportsSlot(e: NormalizedEvent) {
    Finalizes(e, e.identity.slot) || Kills(e, e.identity.slot)
  }

  /** Reports of parents come from one ledger. */
  ghost predicate Honest(batch: seq<NormalizedEvent>, ledger: map<int, int>) {
    forall e | e in batch && ReportsSlot(e) && e.payload.parent.Some? ::
      e.identity.slot in ledger && ledger[e.identity.slot] == e.payload.parent.value
  }

  ghost predicate HonestHistory(trace: seq<World>, ledger: map<int, int>) {
    forall i | 0 <= i < |trace| && trace[i].process.Mid? :: Honest(trace[i].process.batch, ledger)
  }

  ghost predicate RowsHonest(t: SlotTable, ledger: map<int, int>) {
    forall s | s in t && t[s].parentSlot.Some? :: s in ledger && Some(ledger[s]) == t[s].parentSlot
  }

  ghost predicate Joined(w: World, ledger: map<int, int>) {
    && RowsHonest(w.db.slots, ledger)
    && (Stored(w.db.cursor).Some? ==>
          && w.boot.Some? && w.boot.value in FinalizedParents(w.db.slots)
          && Linked(FinalizedParents(w.db.slots), w.boot.value, Stored(w.db.cursor).value))
  }

  lemma HonestTablesAgree(t: SlotTable, batch: seq<NormalizedEvent>, ledger: map<int, int>)
    requires RowsHonest(t, ledger) && Honest(batch, ledger)
    ensures ParentsAgree(t, SlotStates(batch)) && RowsHonest(UpsertAll(t, SlotStates(batch)), ledger)
  {
    var us := SlotStates(batch);
    SlotStatesAreReports(batch);
    forall u | u in us && u.parentSlot.Some? ensures u.slot in ledger && Some(ledger[u.slot]) == u.parentSlot {
      var e :| e in batch && Tells(e, u);
      assert ReportsSlot(e);
    }
    var after := UpsertAll(t, us);
    forall s | s in after && after[s].parentSlot.Some? ensures s in ledger && Some(ledger[s]) == after[s].parentSlot {
      RowAfter(t, us, s);
    }
  }

  lemma NextKeepsJoined(w: World, w': World, ledger: map<int, int>)
    requires Inv(w) && Joined(w, ledger) && Next(w, w')
    requires w.process.Mid? ==> Honest(w.process.batch, ledger)
    ensures Joined(w', ledger)
  {
    if TakeEffect(w, w') && w'.db != w.db && !OtherStream(w, w') {
      var m, m' := FinalizedParents(w.db.slots), FinalizedParents(w'.db.slots);
      if w.process.k == 2 {
        HonestTablesAgree(w.db.slots, w.process.batch, ledger);
        AgreeingTablesExtend(w.db.slots, SlotStates(w.process.batch));
        if Stored(w.db.cursor).Some? {
          LinkedExtends(m, m', w.boot.value, Stored(w.db.cursor).value);
        }
      } else if w.process.k == 3 {
        NewWatermark(Stored(w.db.cursor), w.db.slots);
        var now := Stored(w'.db.cursor).value;
        if Stored(w.db.cursor).Some? && now != Stored(w.db.cursor).value {
          LinkedTransitive(m, w.boot.value, Stored(w.db.cursor).value, now);
        }
      }
    }
  }

  /** If parents are reported from one ledger, finalized parent links join the watermark to the bootstrap slot. */
  lemma {:induction false} WatermarkIsJoinedToBoot(trace: seq<World>, ledger: map<int, int>, i: nat)
    requires History(trace) && HonestHistory(trace, ledger) && i < |trace|
    ensures Joined(trace[i], ledger)
  {
    if i > 0 {
      WatermarkIsJoinedToBoot(trace, ledger, i - 1);
      HistoryKeepsInv(trace, i - 1);
      NextKeepsJoined(trace[i - 1], trace[i], ledger);
    }
  }
}
