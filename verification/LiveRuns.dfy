/**
 The watermark of whole runs of the pipeline: what the batches it writes make of the stored watermark, and when a run
 can be completed.
 */
module LiveRuns {
  import opened Base
  import opened EventIdentities
  import opened SlotChain
  import opened SlotTables
  import opened Watermarks
  import opened Storage
  import opened Pipeline

  type Batches = seq<seq<NormalizedEvent>>

  ghost predicate TracksWatermark(cfg: PipelineConfig) {
    cfg.recordsSlots && cfg.advanceFinalizedWatermark
  }

  /** The slot reports of each batch. */
  function Reports(batches: Batches): (r: seq<Updates>)
    ensures |r| == |batches|
  {
    if batches == [] then [] else Reports(batches[..|batches| - 1]) + [SlotStates(batches[|batches| - 1])]
  }

  lemma {:induction false} ReportsFlatten(batches: Batches)
    ensures Flatten(Reports(batches)) == SlotStates(Flatten(batches))
  {
    if batches != [] {
      var front, last := batches[..|batches| - 1], batches[|batches| - 1];
      ReportsFlatten(front);
      assert batches == front + [last];
      FlattenSnoc(front, last);
      FlattenSnoc(Reports(front), SlotStates(last));
      SlotStatesAppend(Flatten(front), last);
    }
  }

  // ---------------------------------------------------------------- the pipeline follows the slot tables

  lemma AdvancedIsAnchor(c: Option<CursorRow>, t: SlotTable)
    ensures Advanced(c, t).contiguous == AdvancedAnchor(Stored(c), t)
  {
  }

  /** The last effect of a batch, from the table with its rows recorded. */
  lemma BatchAdvances(db: Db, batch: seq<NormalizedEvent>, cfg: PipelineConfig, d: Db)
    requires TracksWatermark(cfg) && After(db, batch, cfg, 4) == Some(d)
    ensures d.slots == UpsertAll(db.slots, SlotStates(batch))
    ensures Stored(d.cursor)
         == if AnyFinalized(SlotStates(batch)) then AdvancedAnchor(Stored(db.cursor), d.slots) else Stored(db.cursor)
  {
    var three := After(db, batch, cfg, 3).value;
    AfterTables(db, batch, cfg, 3, three);
    AfterTables(db, batch, cfg, 4, d);
    ThreeKeepAnchor(db, batch, cfg, three);
    AdvancedIsAnchor(three.cursor, three.slots);
  }

  lemma ThreeKeepAnchor(db: Db, batch: seq<NormalizedEvent>, cfg: PipelineConfig, d: Db)
    requires After(db, batch, cfg, 3) == Some(d)
    ensures Stored(d.cursor) == Stored(db.cursor)
  {
    var two, one := After(db, batch, cfg, 2).value, After(db, batch, cfg, 1).value;
    assert After(db, batch, cfg, 0) == Some(db);
    assert one.cursor == db.cursor;
    assert Stored(two.cursor) == Stored(one.cursor);
  }

  lemma OneMoreBatch(anchor: Option<int>, t: SlotTable, batches: Batches)
    requires batches != []
    ensures var front, last := batches[..|batches| - 1], SlotStates(batches[|batches| - 1]);
            && TableAfter(t, Reports(batches)) == UpsertAll(TableAfter(t, Reports(front)), last)
            && AnchorAfter(anchor, t, Reports(batches))
                 == (var before := AnchorAfter(anchor, t, Reports(front));
                     if AnyFinalized(last) then AdvancedAnchor(before, TableAfter(t, Reports(batches))) else before)
  {
    var front, last := batches[..|batches| - 1], SlotStates(batches[|batches| - 1]);
    assert Reports(batches)[..|batches| - 1] == Reports(front);
    FlattenSnoc(Reports(front), last);
    UpsertAllAppend(t, Flatten(Reports(front)), last);
  }

  /** Executing batches records their reports, and moves the watermark as the slot tables say. */
  lemma {:induction false} ExecFollowsTables(db: Db, batches: Batches, cfg: PipelineConfig, d: Db)
    requires TracksWatermark(cfg) && Exec(db, batches, cfg) == Some(d)
    ensures d.slots == TableAfter(db.slots, Reports(batches))
    ensures Stored(d.cursor) == AnchorAfter(Stored(db.cursor), db.slots, Reports(batches))
  {
    if batches != [] {
      var front, last := batches[..|batches| - 1], batches[|batches| - 1];
      var mid := Exec(db, front, cfg).value;
      ExecFollowsTables(db, front, cfg, mid);
      BatchAdvances(mid, last, cfg, d);
      OneMoreBatch(Stored(db.cursor), db.slots, batches);
    }
  }

  // ---------------------------------------------------------------- the stored watermark of a run

  /**
   Whatever the pipeline writes, a right watermark ends up as that of one walk over everything recorded exactly if no
   report since the last advance hangs a finalized slot under it.
   */
  lemma RunStaysRightIff(db: Db, batches: Batches, cfg: PipelineConfig, d: Db, a: int)
    requires TracksWatermark(cfg) && Exec(db, batches, cfg) == Some(d)
    requires Proper(db.slots, SlotStates(Flatten(batches)))
    requires Stored(db.cursor) == Some(Walk(FinalizedParents(db.slots), a))
    ensures Stored(d.cursor).Some?
    ensures Stored(d.cursor).value == Walk(FinalizedParents(d.slots), a)
       <==> !HungUnder(d.slots, SinceAdvance(Reports(batches)), Stored(d.cursor).value)
  {
    ReportsFlatten(batches);
    ExecFollowsTables(db, batches, cfg, d);
    StaysRightIff(Stored(db.cursor).value, db.slots, Reports(batches), a);
  }

  /** With finalized and dead slots kept apart, a run never leaves the watermark behind. */
  lemma RunStaysRight(db: Db, batches: Batches, cfg: PipelineConfig, d: Db, a: int)
    requires TracksWatermark(cfg) && Exec(db, batches, cfg) == Some(d)
    requires Proper(db.slots, SlotStates(Flatten(batches))) && KindsDisjoint(db.slots, SlotStates(Flatten(batches)))
    requires Stored(db.cursor) == Some(Walk(FinalizedParents(db.slots), a))
    ensures Stored(d.cursor) == Some(Walk(FinalizedParents(d.slots), a))
  {
    RunStaysRightIff(db, batches, cfg, d, a);
    ReportsFlatten(batches);
    ExecFollowsTables(db, batches, cfg, d);
    DisjointKindsHangNothing(db.slots, Reports(batches), Stored(d.cursor).value);
  }

  /** From any state, wrong watermark or none: a run with a finalized report ends with one walk from its first seed. */
  lemma RunCatchesUp(db: Db, batches: Batches, cfg: PipelineConfig, d: Db)
    requires TracksWatermark(cfg) && Exec(db, batches, cfg) == Some(d)
    requires Proper(db.slots, SlotStates(Flatten(batches))) && KindsDisjoint(db.slots, SlotStates(Flatten(batches)))
    requires AnyFinalized(SlotStates(Flatten(batches)))
    ensures FirstSeed(Stored(db.cursor), db.slots, Reports(batches)).Some?
    ensures Stored(d.cursor)
         == Some(Walk(FinalizedParents(d.slots), FirstSeed(Stored(db.cursor), db.slots, Reports(batches)).value))
  {
    ReportsFlatten(batches);
    ExecFollowsTables(db, batches, cfg, d);
    Confluence(Stored(db.cursor), db.slots, Reports(batches));
    DisjointKindsHangNothing(db.slots, Reports(batches), Stored(d.cursor).value);
  }

  lemma OneState(e: NormalizedEvent, u: SlotStateUpdate)
    requires SlotStateFromEvent(e) == Some(u)
    ensures SlotStates([e]) == [u]
  {
    assert [e][..0] == [];
  }

  lemma OneMerged(u: SlotStateUpdate)
    ensures Merge([u]) == map[u.slot := u]
  {
    assert [u][..0] == [];
    assert Merge([u]) == MergeInto(map[], u);
  }

  /** A batch with one report records it and, if it is finalized, advances the watermark. */
  lemma OneReport(db: Db, e: NormalizedEvent, u: SlotStateUpdate, cfg: PipelineConfig) returns (d: Db)
    requires TracksWatermark(cfg) && EventStorable(e) && SlotStateFromEvent(e) == Some(u) && RowStorable(u)
    requires u.finalized ==> QueryEnds(Stored(db.cursor), UpsertAll(db.slots, [u]))
    ensures After(db, [e], cfg, 4) == Some(d) && d.slots == UpsertAll(db.slots, [u])
    ensures Stored(d.cursor) == if u.finalized then AdvancedAnchor(Stored(db.cursor), d.slots) else Stored(db.cursor)
  {
    OneState(e, u);
    OneMerged(u);
    OneInRange(db, [e], cfg);
    d := After(db, [e], cfg, 4).value;
    BatchAdvances(db, [e], cfg, d);
  }

  /** A finalized slot without a parent, above the watermark if there is one: the watermark is the lowest slot. */
  lemma OneRoot(db: Db, e: NormalizedEvent, slot: u64, low: int, cfg: PipelineConfig) returns (d: Db)
    requires TracksWatermark(cfg) && FitsBigint(slot) && slot !in db.slots
    requires e.identity.Slot? && e.identity.slot == slot && e.identity.status == Finalized && e.payload.parent.None?
    requires forall s | s in FinalizedParents(db.slots) :: FinalizedParents(db.slots)[s].None?
    requires Seed(Stored(db.cursor), db.slots[slot := SlotRow(None, true, false)]) == Some(low)
    ensures After(db, [e], cfg, 4) == Some(d) && d.slots == db.slots[slot := SlotRow(None, true, false)]
    ensures Stored(d.cursor) == Some(low)
  {
    var u := SlotStateUpdate(slot, None, true, false);
    UpsertOne(db.slots, u);
    var after := UpsertAll(db.slots, [u]);
    assert after == Upsert(db.slots, u) == db.slots[slot := SlotRow(None, true, false)];
    assert forall s | s in FinalizedParents(after) && s != slot :: s in FinalizedParents(db.slots);
    var m := FinalizedParents(after);
    assert forall s | s in m :: m[s].None?;
    OrderedHasNoCycle(m, low);
    d := OneReport(db, e, u, cfg);
    AdvanceWalks(Stored(db.cursor), after, low);
    assert Children(m, low) == {};
  }

  /**
   From an empty database: two finalized slots without parents and then a batch with nothing but a dead report, which
   names the parent of the higher one, leave the watermark behind.
   */
  lemma DeadOnlyBatchLeavesLag(cluster: string, body: string, cfg: PipelineConfig) returns (d: Db)
    requires TracksWatermark(cfg)
    ensures Exec(Db(map[], None, map[]),
                 [[NormalizedEvent(Slot(cluster, 3, Finalized), Payload(None, body))],
                  [NormalizedEvent(Slot(cluster, 5, Finalized), Payload(None, body))],
                  [NormalizedEvent(Slot(cluster, 5, Dead), Payload(Some(3), body))]], cfg) == Some(d)
    ensures Stored(d.cursor) == Some(3) && Walk(FinalizedParents(d.slots), 3) == 5
  {
    var start: Db := Db(map[], None, map[]);
    var three := NormalizedEvent(Slot(cluster, 3, Finalized), Payload(None, body));
    var five := NormalizedEvent(Slot(cluster, 5, Finalized), Payload(None, body));
    var dead := NormalizedEvent(Slot(cluster, 5, Dead), Payload(Some(3), body));
    LowestOfOne();
    var one := OneRoot(start, three, 3, 3, cfg);
    var two := OneRoot(one, five, 5, 3, cfg);
    var u := SlotStateUpdate(5, Some(3), false, true);
    d := OneReport(two, dead, u, cfg);
    ThreeBatches(start, one, two, d, [three], [five], [dead], cfg);
    assert two.slots == map[3 := SlotRow(None, true, false), 5 := SlotRow(None, true, false)];
    DeadOnlyBatchLags();
    FlattenOne([u]);
  }

  lemma LowestOfOne()
    ensures LowestFinalized(map[3 := SlotRow(None, true, false)]) == Some(3)
  {
    assert 3 in FinalizedParents(map[3 := SlotRow(None, true, false)]).Keys;
  }

  lemma ThreeBatches(start: Db, one: Db, two: Db, d: Db, a: seq<NormalizedEvent>, b: seq<NormalizedEvent>,
                     c: seq<NormalizedEvent>, cfg: PipelineConfig)
    requires After(start, a, cfg, 4) == Some(one) && After(one, b, cfg, 4) == Some(two)
    requires After(two, c, cfg, 4) == Some(d)
    ensures Exec(start, [a, b, c], cfg) == Some(d)
  {
    ExecSnoc(start, [], cfg, a, start);
    assert [] + [a] == [a] && [a] + [b] == [a, b] && [a, b] + [c] == [a, b, c];
    ExecSnoc(start, [a], cfg, b, one);
    ExecSnoc(start, [a, b], cfg, c, two);
  }

  // ---------------------------------------------------------------- when a run can be completed

  ghost predicate BatchInRange(batch: seq<NormalizedEvent>) {
    (forall e | e in batch :: EventStorable(e)) && Storable(Merge(SlotStates(batch)))
  }

  lemma CursorInRange(db: Db, batch: seq<NormalizedEvent>, cfg: PipelineConfig)
    ensures After(db, batch, cfg, 2).Some? <==> forall e | e in batch :: EventStorable(e)
  {
    assert After(db, batch, cfg, 0) == Some(db);
    assert After(db, batch, cfg, 1).Some?;
    if batch != [] { MaxSlotBounds(batch); }
  }

  lemma RowsInRange(db: Db, batch: seq<NormalizedEvent>, cfg: PipelineConfig)
    requires TracksWatermark(cfg)
    ensures After(db, batch, cfg, 3).Some? <==> BatchInRange(batch)
  {
    CursorInRange(db, batch, cfg);
    if SlotStates(batch) == [] { assert Storable(Merge(SlotStates(batch))); }
  }

  lemma OneInRange(db: Db, batch: seq<NormalizedEvent>, cfg: PipelineConfig)
    requires TracksWatermark(cfg)
    ensures After(db, batch, cfg, 4).Some? <==>
              && BatchInRange(batch)
              && (AnyFinalized(SlotStates(batch)) ==>
                    QueryEnds(Stored(db.cursor), UpsertAll(db.slots, SlotStates(batch))))
  {
    RowsInRange(db, batch, cfg);
    if BatchInRange(batch) {
      var three := After(db, batch, cfg, 3).value;
      AfterTables(db, batch, cfg, 3, three);
      ThreeKeepAnchor(db, batch, cfg, three);
    }
  }

  ghost predicate AllInRange(batches: Batches) {
    forall i | 0 <= i < |batches| :: BatchInRange(batches[i])
  }

  lemma AllInRangeSnoc(batches: Batches)
    requires batches != []
    ensures AllInRange(batches) <==> AllInRange(batches[..|batches| - 1]) && BatchInRange(batches[|batches| - 1])
  {
    assert forall i | 0 <= i < |batches| - 1 :: batches[..|batches| - 1][i] == batches[i];
  }

  /** Parent reports agree, and every parent lies below its slot; forks are allowed. */
  ghost predicate Grounded(t: SlotTable, us: Updates) {
    ParentsAgree(t, us) && Ordered(FinalizedParents(UpsertAll(t, us)))
  }

  /**
   With agreeing parents below their slots every query returns, so a run completes exactly if all its slots and the
   last parents named in each batch fit a BIGINT.
   */
  lemma {:induction false} RunCompletesIff(db: Db, batches: Batches, cfg: PipelineConfig)
    requires TracksWatermark(cfg) && Grounded(db.slots, SlotStates(Flatten(batches)))
    ensures Exec(db, batches, cfg).Some? <==> AllInRange(batches)
  {
    if batches != [] {
      var front := batches[..|batches| - 1];
      PrefixGrounded(db.slots, batches);
      RunCompletesIff(db, front, cfg);
      AllInRangeSnoc(batches);
      if Exec(db, front, cfg).Some? { LastBatchCompletesIff(db, batches, cfg, Exec(db, front, cfg).value); }
    }
  }

  lemma LastBatchCompletesIff(db: Db, batches: Batches, cfg: PipelineConfig, mid: Db)
    requires TracksWatermark(cfg) && Grounded(db.slots, SlotStates(Flatten(batches)))
    requires batches != [] && Exec(db, batches[..|batches| - 1], cfg) == Some(mid)
    ensures After(mid, batches[|batches| - 1], cfg, 4).Some? <==> BatchInRange(batches[|batches| - 1])
  {
    LastRunQueryEnds(db, batches, cfg, mid);
    OneInRange(mid, batches[|batches| - 1], cfg);
  }

  lemma LastTableQueryEnds(anchor: Option<int>, t: SlotTable, batches: Batches)
    requires batches != [] && Grounded(t, SlotStates(Flatten(batches)))
    ensures var front, us := Reports(batches[..|batches| - 1]), SlotStates(batches[|batches| - 1]);
            AnyFinalized(us) ==> QueryEnds(AnchorAfter(anchor, t, front), UpsertAll(TableAfter(t, front), us))
  {
    var reports := Reports(batches);
    ReportsFlatten(batches);
    assert reports[..|reports| - 1] == Reports(batches[..|batches| - 1]);
    LastQueryEnds(anchor, t, reports);
  }

  lemma LastRunQueryEnds(db: Db, batches: Batches, cfg: PipelineConfig, mid: Db)
    requires TracksWatermark(cfg) && Grounded(db.slots, SlotStates(Flatten(batches)))
    requires batches != [] && Exec(db, batches[..|batches| - 1], cfg) == Some(mid)
    ensures var us := SlotStates(batches[|batches| - 1]);
            AnyFinalized(us) ==> QueryEnds(Stored(mid.cursor), UpsertAll(mid.slots, us))
  {
    ExecFollowsTables(db, batches[..|batches| - 1], cfg, mid);
    LastTableQueryEnds(Stored(db.cursor), db.slots, batches);
  }

  lemma GroundedPart(t: SlotTable, a: Updates, b: Updates)
    requires Grounded(t, a + b)
    ensures Grounded(t, a)
  {
    UpsertAllAppend(t, a, b);
    AgreementSplits(t, a, b);
    AgreeingTablesExtend(UpsertAll(t, a), b);
  }

  lemma StatesSnoc(batches: Batches)
    requires batches != []
    ensures SlotStates(Flatten(batches))
         == SlotStates(Flatten(batches[..|batches| - 1])) + SlotStates(batches[|batches| - 1])
  {
    var front, last := batches[..|batches| - 1], batches[|batches| - 1];
    assert batches == front + [last];
    FlattenSnoc(front, last);
    SlotStatesAppend(Flatten(front), last);
  }

  lemma PrefixGrounded(t: SlotTable, batches: Batches)
    requires batches != [] && Grounded(t, SlotStates(Flatten(batches)))
    ensures Grounded(t, SlotStates(Flatten(batches[..|batches| - 1])))
  {
    StatesSnoc(batches);
    GroundedPart(t, SlotStates(Flatten(batches[..|batches| - 1])), SlotStates(batches[|batches| - 1]));
  }

  // ---------------------------------------------------------------- the head

  lemma FinalizedInPart(a: Updates, b: Updates)
    ensures AnyFinalized(a + b) <==> AnyFinalized(a) || AnyFinalized(b)
  {
    assert forall u :: u in a + b <==> u in a || u in b;
  }

  /** More reports never lower the highest finalized slot, and only finalized ones can raise it. */
  lemma HighestGrows(t: SlotTable, us: Updates)
    ensures AtMost(HighestFinalized(t), HighestFinalized(UpsertAll(t, us)))
    ensures !AnyFinalized(us) ==> HighestFinalized(UpsertAll(t, us)) == HighestFinalized(t)
  {
    var before, after := FinalizedParents(t).Keys, FinalizedParents(UpsertAll(t, us)).Keys;
    forall s: int
      ensures s in before ==> s in after
      ensures !AnyFinalized(us) && s in after ==> s in before
    {
      FlagsAfter(t, us, s);
    }
    assert !AnyFinalized(us) ==> before == after;
  }

  /** What the first `k` effects of a batch make of persisted slot and head. */
  lemma {:induction false} PartMovesCursor(db: Db, batch: seq<NormalizedEvent>, cfg: PipelineConfig, k: nat, d: Db)
    requires batch != [] && k <= 4 && After(db, batch, cfg, k) == Some(d)
    ensures PersistedOf(d.cursor)
         == if k >= 2 then Greatest(PersistedOf(db.cursor), Some(MaxSlot(batch))) else PersistedOf(db.cursor)
    ensures k >= 2 ==> d.cursor.Some?
    ensures HeadOf(d.cursor)
         == if k == 4 && cfg.recordsSlots && Advances(cfg, batch)
            then Greatest(HeadOf(db.cursor), HighestFinalized(d.slots)) else HeadOf(db.cursor)
  {
    if k > 0 { PartMovesCursor(db, batch, cfg, k - 1, After(db, batch, cfg, k - 1).value); }
  }

  /** Complete batches raise the head to the highest finalized slot, if one of them reports a finalized slot at all. */
  lemma {:induction false} ExecMovesHead(db: Db, cs: Batches, cfg: PipelineConfig, d: Db)
    requires TracksWatermark(cfg) && Exec(db, cs, cfg) == Some(d) && forall i | 0 <= i < |cs| :: cs[i] != []
    ensures HeadOf(d.cursor)
         == if AnyFinalized(SlotStates(Flatten(cs))) then Greatest(HeadOf(db.cursor), HighestFinalized(d.slots))
            else HeadOf(db.cursor)
  {
    if cs == [] {
      assert SlotStates(Flatten(cs)) == [];
    } else {
      var front, last := cs[..|cs| - 1], cs[|cs| - 1];
      var mid := Exec(db, front, cfg).value;
      ExecMovesHead(db, front, cfg, mid);
      PartMovesCursor(mid, last, cfg, 4, d);
      AfterTables(mid, last, cfg, 4, d);
      HighestGrows(mid.slots, SlotStates(last));
      StatesSnoc(cs);
      FinalizedInPart(SlotStates(Flatten(front)), SlotStates(last));
    }
  }
}
