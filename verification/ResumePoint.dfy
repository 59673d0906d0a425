/**
 The atomic cell through which the pipeline tells the producer from which slot to resume, and the resume points of
 all connection attempts over any runs, crashes and restarts.
 */
module ResumePoint {
  import opened Base
  import opened SlotTables
  import opened Storage
  import opened Pipeline
  import opened CrashSafety

  // ---------------------------------------------------------------- the cell

  /** Zero stands for "no slot". */
  function EncodeSlot(slot: Option<u64>): u64 {
    if slot.None? then 0 else Min(slot.value + 1, MAX_U64)
  }

  datatype Decoding = Value(slot: Option<u64>) | Panic

  /** `encoded - 1` is evaluated whether or not it is wanted; with overflow checks on it panics for zero. */
  function DecodeSlot(encoded: u64, overflowChecks: bool): Decoding {
    if encoded == 0 && overflowChecks then Panic
    else
      var less := if encoded == 0 then MAX_U64 else encoded - 1;
      Value(if encoded > 0 then Some(less) else None)
  }

  /** Every slot but the very last is read back as it was stored. */
  lemma DecodesWhatWasEncoded(slot: Option<u64>, overflowChecks: bool)
    ensures DecodeSlot(EncodeSlot(slot), overflowChecks) == Value(slot)
       <==> slot != Some(MAX_U64) && (slot.Some? || !overflowChecks)
    ensures DecodeSlot(EncodeSlot(slot), overflowChecks) == Panic <==> slot.None? && overflowChecks
  {
  }

  /** What the cell holds. */
  function Held(cell: u64): Option<u64> {
    if cell == 0 then None else Some(cell - 1)
  }

  /** The two callbacks share the cell; the progress callback also remembers how many batches it has seen. */
  class ResumeCell {
    var cell: u64
    var batchesSeen: nat

    constructor (frontier: Option<u64>)
      ensures cell == EncodeSlot(frontier) && batchesSeen == 0
    {
      cell := EncodeSlot(frontier);
      batchesSeen := 0;
    }

    /** A summary with new batches and a watermark puts the watermark into the cell; no other one touches it. */
    method OnProgress(summary: PipelineSummary)
      modifies this
      ensures summary.batchesWritten > old(batchesSeen) ==>
                && batchesSeen == summary.batchesWritten
                && (summary.lastContiguousFinalizedSlot.Some? ==>
                      Held(cell) == Some(Min(summary.lastContiguousFinalizedSlot.value, MAX_U64 - 1)))
                && (summary.lastContiguousFinalizedSlot.None? ==> cell == old(cell))
      ensures summary.batchesWritten <= old(batchesSeen) ==> batchesSeen == old(batchesSeen) && cell == old(cell)
    {
      if summary.batchesWritten > batchesSeen {
        if summary.lastContiguousFinalizedSlot.Some? {
          cell := EncodeSlot(summary.lastContiguousFinalizedSlot);
        }
        batchesSeen := summary.batchesWritten;
      }
    }

    method ConfigureAttempt(overflowChecks: bool) returns (from: Decoding)
      ensures from == DecodeSlot(cell, overflowChecks)
      ensures from.Panic? <==> cell == 0 && overflowChecks
      ensures from.Value? ==> from.slot == Held(cell)
    {
      from := DecodeSlot(cell, overflowChecks);
    }
  }

  // ---------------------------------------------------------------- producer and pipeline side by side

  /** `contiguous` and `batches` are the running summary's; `attempts` are the resume points used so far. */
  datatype Live = Live(world: World, contiguous: Option<u64>, batches: nat, cell: u64, seen: nat,
                       attempts: seq<Option<u64>>)

  ghost predicate StartLive(s: Live) {
    CrashSafety.Init(s.world) && s.cell == 0 && s.contiguous == None && s.attempts == []
  }

  /** Start-up reads the frontier into the cell. */
  ghost predicate BootUp(s: Live, s': Live) {
    && StartUp(s.world, s'.world)
    && var frontier := DecodeStored(Stored(s.world.db.cursor));
       && frontier.Ok?
       && s' == Live(s'.world, None, 0, EncodeSlot(frontier.value), 0, s.attempts)
  }

  /** The batch under way asks for the watermark after its slot states. */
  ghost predicate AsksForWatermark(p: Process) {
    p.Mid? && p.k == 3 && p.cfg.recordsSlots && Advances(p.cfg, p.batch)
  }

  /** A step of the pipeline, of another stream, or a stop. A frontier that does not decode ends the run instead. */
  ghost predicate PipelineStep(s: Live, s': Live) {
    && (BeginBatch(s.world, s'.world) || TakeEffect(s.world, s'.world) || FinishBatch(s.world, s'.world)
        || Stop(s.world, s'.world) || OtherStream(s.world, s'.world))
    && s'.cell == s.cell && s'.seen == s.seen && s'.attempts == s.attempts
    && s'.batches == s.batches + (if FinishBatch(s.world, s'.world) then 1 else 0)
    && if TakeEffect(s.world, s'.world) && AsksForWatermark(s.world.process)
       then DecodeStored(Stored(s'.world.db.cursor)) == Ok(s'.contiguous)
       else s'.contiguous == s.contiguous
  }

  /** The running summary is published between two batches. */
  ghost predicate ProgressStep(s: Live, s': Live) {
    && s.world.process.Idle?
    && s' == if s.batches <= s.seen then s
             else s.(cell := if s.contiguous.Some? then EncodeSlot(s.contiguous) else s.cell, seen := s.batches)
  }

  /** The producer connects; this may happen at any moment of a run. */
  ghost predicate AttemptStep(s: Live, s': Live, overflowChecks: bool) {
    && !s.world.process.Down?
    && var from := DecodeSlot(s.cell, overflowChecks);
       from.Value? && s' == s.(attempts := s.attempts + [from.slot])
  }

  ghost predicate LiveNext(s: Live, s': Live, overflowChecks: bool) {
    BootUp(s, s') || PipelineStep(s, s') || ProgressStep(s, s') || AttemptStep(s, s', overflowChecks)
  }

  ghost predicate LiveHistory(trace: seq<Live>, overflowChecks: bool) {
    && trace != [] && StartLive(trace[0])
    && forall i: nat | i < |trace| - 1 :: LiveStepAt(trace, overflowChecks, i)
  }

  ghost predicate LiveStepAt(trace: seq<Live>, overflowChecks: bool, i: nat)
    requires i < |trace| - 1
  {
    LiveNext(trace[i], trace[i + 1], overflowChecks)
  }

  // ---------------------------------------------------------------- resume points only grow

  ghost predicate Growing(attempts: seq<Option<u64>>) {
    forall i, j | 0 <= i <= j < |attempts| :: AtMost(attempts[i], attempts[j])
  }

  ghost predicate LiveInv(s: Live) {
    && CrashSafety.Inv(s.world)
    && AtMost(Held(s.cell), Stored(s.world.db.cursor))
    && AtMost(s.contiguous, Stored(s.world.db.cursor))
    && (s.contiguous.Some? ==> AtMost(Held(s.cell), s.contiguous))
    && Growing(s.attempts)
    && (s.attempts != [] ==> AtMost(s.attempts[|s.attempts| - 1], Held(s.cell)))
    && IsFinalizedRow(s.world.db, Held(s.cell)) && IsFinalizedRow(s.world.db, s.contiguous)
    && (forall a | a in s.attempts :: IsFinalizedRow(s.world.db, a))
  }

  ghost predicate IsFinalizedRow(db: Db, slot: Option<u64>) {
    slot.Some? ==> slot.value in FinalizedParents(db.slots)
  }

  /** The stored watermark is a finalized row's slot, so it fits a BIGINT and is not negative. */
  lemma WatermarkInRange(w: World)
    requires CrashSafety.Inv(w) && Stored(w.db.cursor).Some?
    ensures 0 <= Stored(w.db.cursor).value <= MAX_I64
  {
  }

  lemma BootKeepsInv(s: Live, s': Live)
    requires LiveInv(s) && BootUp(s, s')
    ensures LiveInv(s')
  {
    NextKeepsInv(s.world, s'.world);
    if Stored(s.world.db.cursor).Some? { WatermarkInRange(s.world); }
    assert Held(s'.cell) == Stored(s.world.db.cursor);
  }

  lemma RowsStay(a: Db, b: Db, slot: Option<u64>)
    requires Grown(a, b) && AtMost(slot, Stored(a.cursor)) && IsFinalizedRow(a, slot)
    ensures AtMost(slot, Stored(b.cursor)) && IsFinalizedRow(b, slot)
  {
  }

  lemma PipelineKeepsInv(s: Live, s': Live)
    requires LiveInv(s) && PipelineStep(s, s')
    ensures LiveInv(s')
  {
    NextKeepsInv(s.world, s'.world);
    NextGrows(s.world, s'.world);
    RowsStay(s.world.db, s'.world.db, Held(s.cell));
    RowsStay(s.world.db, s'.world.db, s.contiguous);
    assert Safe(s'.world.db);
    assert IsFinalizedRow(s'.world.db, s'.contiguous);
  }

  lemma ProgressKeepsInv(s: Live, s': Live)
    requires LiveInv(s) && ProgressStep(s, s')
    ensures LiveInv(s')
  {
    if s.contiguous.Some? { WatermarkInRange(s.world); }
  }

  lemma AttemptKeepsInv(s: Live, s': Live, overflowChecks: bool)
    requires LiveInv(s) && AttemptStep(s, s', overflowChecks)
    ensures LiveInv(s')
  {
    assert s'.attempts[|s.attempts|] == Held(s.cell);
    forall i, j | 0 <= i <= j < |s'.attempts| ensures AtMost(s'.attempts[i], s'.attempts[j]) {
      if j == |s.attempts| && i < j {
        assert AtMost(s.attempts[i], s.attempts[j - 1]);
      }
    }
  }

  lemma {:induction false} LiveHistoryKeepsInv(trace: seq<Live>, overflowChecks: bool, i: nat)
    requires LiveHistory(trace, overflowChecks) && i < |trace|
    ensures LiveInv(trace[i])
  {
    if i > 0 {
      LiveHistoryKeepsInv(trace, overflowChecks, i - 1);
      var s, s' := trace[i - 1], trace[i];
      assert LiveStepAt(trace, overflowChecks, i - 1);
      if BootUp(s, s') { BootKeepsInv(s, s'); }
      else if PipelineStep(s, s') { PipelineKeepsInv(s, s'); }
      else if ProgressStep(s, s') { ProgressKeepsInv(s, s'); }
      else { AttemptKeepsInv(s, s', overflowChecks); }
    }
  }

  /**
   Over all interleavings and restarts: successive attempts never resume from an earlier slot, never drop a resume
   point once there is one, and never resume beyond the watermark stored at that moment; each resumes from a slot
   that is recorded as finalized.
   */
  lemma ResumePointsNeverGoBack(trace: seq<Live>, overflowChecks: bool, i: nat)
    requires LiveHistory(trace, overflowChecks) && i < |trace|
    ensures Growing(trace[i].attempts)
    ensures forall a | a in trace[i].attempts ::
              AtMost(a, Stored(trace[i].world.db.cursor)) && IsFinalizedRow(trace[i].world.db, a)
  {
    LiveHistoryKeepsInv(trace, overflowChecks, i);
    var s := trace[i];
    forall a | a in s.attempts ensures AtMost(a, Stored(s.world.db.cursor)) {
      var j :| 0 <= j < |s.attempts| && s.attempts[j] == a;
      assert AtMost(s.attempts[j], s.attempts[|s.attempts| - 1]);
    }
  }

  lemma {:induction false} ChecksKeepAttemptsSet(trace: seq<Live>, i: nat)
    requires LiveHistory(trace, true) && i < |trace|
    ensures forall a | a in trace[i].attempts :: a.Some?
  {
    if i > 0 {
      ChecksKeepAttemptsSet(trace, i - 1);
      assert LiveStepAt(trace, true, i - 1);
    }
  }

  /** With overflow checks on, a stream without a stored watermark has never made an attempt, over any runs. */
  lemma NoWatermarkNoAttempt(trace: seq<Live>, i: nat)
    requires LiveHistory(trace, true) && i < |trace| && Stored(trace[i].world.db.cursor).None?
    ensures trace[i].attempts == []
  {
    assert trace[i].attempts != [] ==> trace[i].attempts[0] in trace[i].attempts;
    ChecksKeepAttemptsSet(trace, i);
    ResumePointsNeverGoBack(trace, true, i);
  }

  // ---------------------------------------------------------------- every watermark reaches the producer

  /** An attempt right after a summary with new batches and a watermark resumes from that watermark. */
  lemma AttemptFollowsProgress(trace: seq<Live>, overflowChecks: bool, i: nat)
    requires LiveHistory(trace, overflowChecks) && i + 2 < |trace|
    requires ProgressStep(trace[i], trace[i + 1]) && trace[i].seen < trace[i].batches && trace[i].contiguous.Some?
    requires AttemptStep(trace[i + 1], trace[i + 2], overflowChecks)
    ensures trace[i + 2].attempts == trace[i].attempts + [trace[i].contiguous]
  {
    LiveHistoryKeepsInv(trace, overflowChecks, i);
    WatermarkInRange(trace[i].world);
  }

  /** The watermark `w` is in the cell, or the next summary or start-up is sure to put it there. */
  ghost predicate Coming(s: Live, w: Option<int>) {
    && AtMost(w, Stored(s.world.db.cursor))
    && (s.world.process.Down? || AtMost(w, Held(s.cell))
        || (AtMost(w, s.contiguous) && s.seen <= s.batches && (s.seen < s.batches || s.world.process.Mid?)))
  }

  /** The cell holds `w` or something higher. */
  ghost predicate Arrived(s: Live, w: Option<int>) {
    AtMost(w, Stored(s.world.db.cursor)) && AtMost(w, Held(s.cell))
  }

  ghost predicate CountsInOrder(s: Live) {
    !s.world.process.Down? ==> s.seen <= s.batches
  }

  lemma {:induction false} CountsStayInOrder(trace: seq<Live>, overflowChecks: bool, i: nat)
    requires LiveHistory(trace, overflowChecks) && i < |trace|
    ensures CountsInOrder(trace[i])
  {
    if i > 0 {
      CountsStayInOrder(trace, overflowChecks, i - 1);
      assert LiveStepAt(trace, overflowChecks, i - 1);
    }
  }

  lemma ArrivedStays(s: Live, s': Live, overflowChecks: bool, w: Option<int>)
    requires LiveInv(s) && LiveNext(s, s', overflowChecks) && Arrived(s, w)
    ensures Arrived(s', w)
  {
    if BootUp(s, s') {
      if Stored(s.world.db.cursor).Some? { WatermarkInRange(s.world); }
    } else if PipelineStep(s, s') {
      NextGrows(s.world, s'.world);
    } else if ProgressStep(s, s') {
      if s.contiguous.Some? { WatermarkInRange(s.world); }
    }
  }

  lemma PipelineKeepsComing(s: Live, s': Live, w: Option<int>)
    requires LiveInv(s) && PipelineStep(s, s') && Coming(s, w)
    ensures Coming(s', w)
  {
    NextGrows(s.world, s'.world);
    assert s'.seen == s.seen && s'.cell == s.cell;
  }

  /** A summary or a start-up brings it into the cell. */
  lemma ComingArrives(s: Live, s': Live, w: Option<int>)
    requires LiveInv(s) && Coming(s, w) && (ProgressStep(s, s') || BootUp(s, s'))
    ensures Arrived(s', w)
  {
    if Stored(s.world.db.cursor).Some? { WatermarkInRange(s.world); }
  }

  lemma NextKeepsComing(s: Live, s': Live, overflowChecks: bool, w: Option<int>)
    requires LiveInv(s) && LiveNext(s, s', overflowChecks) && Coming(s, w)
    ensures Coming(s', w)
  {
    if PipelineStep(s, s') { PipelineKeepsComing(s, s', w); }
    else if BootUp(s, s') || ProgressStep(s, s') { ComingArrives(s, s', w); }
  }

  lemma {:induction false} ComingUntil(trace: seq<Live>, overflowChecks: bool, i: nat, m: nat, w: Option<int>)
    requires LiveHistory(trace, overflowChecks) && i <= m < |trace| && Coming(trace[i], w)
    ensures Coming(trace[m], w)
  {
    if i < m {
      ComingUntil(trace, overflowChecks, i, m - 1, w);
      LiveHistoryKeepsInv(trace, overflowChecks, m - 1);
      assert LiveStepAt(trace, overflowChecks, m - 1);
      NextKeepsComing(trace[m - 1], trace[m], overflowChecks, w);
    }
  }

  lemma {:induction false} ArrivedSince(trace: seq<Live>, overflowChecks: bool, m: nat, n: nat, w: Option<int>)
    requires LiveHistory(trace, overflowChecks) && m <= n < |trace| && Arrived(trace[m], w)
    ensures Arrived(trace[n], w)
  {
    if m < n {
      ArrivedSince(trace, overflowChecks, m, n - 1, w);
      LiveHistoryKeepsInv(trace, overflowChecks, n - 1);
      assert LiveStepAt(trace, overflowChecks, n - 1);
      ArrivedStays(trace[n - 1], trace[n], overflowChecks, w);
    }
  }

  /**
   Over all interleavings, stops and restarts: once a batch has asked for the watermark and, after that, a summary was
   published or the stream started up again, every attempt resumes from the watermark stored by that batch or a higher
   one.
   */
  lemma WatermarkReachesAttempts(trace: seq<Live>, overflowChecks: bool, i: nat, m: nat, n: nat)
    requires LiveHistory(trace, overflowChecks) && i < m < n && n + 1 < |trace|
    requires TakeEffect(trace[i].world, trace[i + 1].world) && AsksForWatermark(trace[i].world.process)
    requires ProgressStep(trace[m], trace[m + 1]) || BootUp(trace[m], trace[m + 1])
    requires AttemptStep(trace[n], trace[n + 1], overflowChecks)
    ensures |trace[n + 1].attempts| == |trace[n].attempts| + 1
    ensures AtMost(Stored(trace[i + 1].world.db.cursor), trace[n + 1].attempts[|trace[n].attempts|])
  {
    var w := Stored(trace[i + 1].world.db.cursor);
    assert LiveStepAt(trace, overflowChecks, i);
    CountsStayInOrder(trace, overflowChecks, i + 1);
    assert Coming(trace[i + 1], w);
    ComingUntil(trace, overflowChecks, i + 1, m, w);
    LiveHistoryKeepsInv(trace, overflowChecks, m);
    ComingArrives(trace[m], trace[m + 1], w);
    ArrivedSince(trace, overflowChecks, m + 1, n, w);
  }
}
