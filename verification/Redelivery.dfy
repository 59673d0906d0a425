/**
 Redelivery after crashes: the same events delivered again and again, until one run completes, restore the slot table,
 the cursor and the watermark of one uninterrupted run.
 */
module Redelivery {
  import opened Base
  import opened EventIdentities
  import opened SlotChain
  import opened SlotTables
  import opened Watermarks
  import opened Storage
  import opened Pipeline
  import opened Replay
  import opened LiveRuns

  // ---------------------------------------------------------------- states on the way

  /**
   A state on the way: it holds part of the reports `us`, and its watermark, if any, is that of a walk over part of
   its finalized rows, from `first` if that is set and otherwise from one of these rows.
   */
  ghost predicate OnTheWay(db: Db, us: Updates, first: Option<int>) {
    && Proper(db.slots, us) && KindsDisjoint(db.slots, us)
    && (first.Some? ==> Stored(db.cursor).Some?)
    && (Stored(db.cursor).Some? ==> exists a: int, m: Parents :: WalkedOver(db, first, a, m))
  }

  ghost predicate WalkedOver(db: Db, first: Option<int>, a: int, m: Parents) {
    && (if first.Some? then a == first.value else a in FinalizedParents(db.slots))
    && Extends(m, FinalizedParents(db.slots)) && Stored(db.cursor) == Some(Walk(m, a))
  }

  /** Recording reports that are among `us` leads to the same final table. */
  lemma RecordingStaysOnTheWay(t: SlotTable, part: Updates, us: Updates)
    requires Proper(t, us) && KindsDisjoint(t, us) && forall u | u in part :: u in us
    ensures Proper(UpsertAll(t, part), us) && KindsDisjoint(UpsertAll(t, part), us)
    ensures UpsertAll(UpsertAll(t, part), us) == UpsertAll(t, us)
    ensures Extends(FinalizedParents(t), FinalizedParents(UpsertAll(t, part)))
  {
    UpsertAllAppend(t, part, us);
    assert forall u :: u in part + us <==> u in us;
    SetOfUpdatesDecides(t, us, part + us);
    AgreementSplits(t, part, us);
    AgreeingTablesExtend(t, part);
    KindsAfter(t, part);
  }

  lemma PartsProper(db: Db, us: Updates)
    requires Proper(db.slots, us)
    ensures Ordered(FinalizedParents(db.slots)) && NoForks(FinalizedParents(db.slots))
  {
    AgreeingTablesExtend(db.slots, us);
    SubmapOrdered(FinalizedParents(db.slots), FinalizedParents(UpsertAll(db.slots, us)));
  }

  lemma EffectStaysOnTheWay(db: Db, batch: seq<NormalizedEvent>, cfg: PipelineConfig, k: nat, d: Db, us: Updates,
                            first: Option<int>)
    requires k < 4 && OnTheWay(db, us, first) && Effect(db, batch, cfg, k) == Some(d)
    requires forall u | u in SlotStates(batch) :: u in us
    ensures OnTheWay(d, us, first)
  {
    if k == 2 && d != db {
      RecordingStaysOnTheWay(db.slots, SlotStates(batch), us);
      if Stored(db.cursor).Some? {
        var a: int, m: Parents :| WalkedOver(db, first, a, m);
        assert WalkedOver(d, first, a, m);
      }
    } else if k == 3 && d != db {
      AdvanceStaysOnTheWay(db, us, first, d);
    } else if Stored(db.cursor).Some? {
      var a: int, m: Parents :| WalkedOver(db, first, a, m);
      assert WalkedOver(d, first, a, m);
    }
  }

  lemma AdvanceStaysOnTheWay(db: Db, us: Updates, first: Option<int>, d: Db)
    requires OnTheWay(db, us, first) && d == db.(cursor := Some(Advanced(db.cursor, db.slots)))
    ensures OnTheWay(d, us, first)
  {
    var now := FinalizedParents(db.slots);
    PartsProper(db, us);
    AdvancedIsAnchor(db.cursor, db.slots);
    if Stored(db.cursor).Some? {
      var a: int, m: Parents :| WalkedOver(db, first, a, m);
      AdvanceWalks(Stored(db.cursor), db.slots, Walk(m, a));
      WalkResumes(m, now, a);
      assert WalkedOver(d, first, a, now);
    } else if Stored(d.cursor).Some? {
      var a := Seed(None, db.slots).value;
      AdvanceWalks(None, db.slots, a);
      assert WalkedOver(d, first, a, now);
    }
  }

  lemma {:induction false} AfterStaysOnTheWay(db: Db, batch: seq<NormalizedEvent>, cfg: PipelineConfig, k: nat, d: Db,
                                              us: Updates, first: Option<int>)
    requires k <= 4 && OnTheWay(db, us, first) && After(db, batch, cfg, k) == Some(d)
    requires forall u | u in SlotStates(batch) :: u in us
    ensures OnTheWay(d, us, first)
  {
    if k > 0 {
      var before := After(db, batch, cfg, k - 1).value;
      AfterStaysOnTheWay(db, batch, cfg, k - 1, before, us, first);
      EffectStaysOnTheWay(before, batch, cfg, k - 1, d, us, first);
    }
  }

  ghost predicate Within(batches: Batches, us: Updates) {
    forall i, u | 0 <= i < |batches| && u in SlotStates(batches[i]) :: u in us
  }

  lemma {:induction false} ExecStaysOnTheWay(db: Db, batches: Batches, cfg: PipelineConfig, d: Db, us: Updates,
                                             first: Option<int>)
    requires OnTheWay(db, us, first) && Exec(db, batches, cfg) == Some(d) && Within(batches, us)
    ensures OnTheWay(d, us, first)
  {
    if batches != [] {
      var front, last := batches[..|batches| - 1], batches[|batches| - 1];
      assert Within(front, us);
      ExecStaysOnTheWay(db, front, cfg, Exec(db, front, cfg).value, us, first);
      AfterStaysOnTheWay(Exec(db, front, cfg).value, last, cfg, 4, d, us, first);
    }
  }

  lemma {:induction false} BatchesWithin(batches: Batches)
    ensures Within(batches, SlotStates(Flatten(batches)))
  {
    if batches != [] {
      var front, last := batches[..|batches| - 1], batches[|batches| - 1];
      BatchesWithin(front);
      assert batches == front + [last];
      FlattenSnoc(front, last);
      SlotStatesAppend(Flatten(front), last);
    }
  }

  lemma RunStaysOnTheWay(db: Db, events: Events, cfg: PipelineConfig, d: Db, first: Option<int>)
    requires cfg.batchSize > 0 && !cfg.useSlotResume && RunFrom(db, events, cfg, d)
    requires OnTheWay(db, SlotStates(events), first)
    ensures OnTheWay(d, SlotStates(events), first)
  {
    NothingSkipped(events, cfg);
    var cs, us := Chunks(events, cfg.batchSize), SlotStates(events);
    ChunksFlatten(events, cfg.batchSize);
    BatchesWithin(cs);
    if Completes(db, events, cfg, d) {
      ExecStaysOnTheWay(db, cs, cfg, d, us, first);
    } else {
      var j, k :| 0 <= j < |cs| && 0 <= k <= 4 && Cut(db, cs, cfg, j, k) == Some(d);
      assert Within(cs[..j], us);
      var mid := Exec(db, cs[..j], cfg).value;
      ExecStaysOnTheWay(db, cs[..j], cfg, mid, us, first);
      AfterStaysOnTheWay(mid, cs[j], cfg, k, d, us, first);
    }
  }

  lemma NextStaysOnTheWay(states: seq<Db>, events: Events, cfgs: seq<PipelineConfig>, i: nat, first: Option<int>)
    requires FullRuns(cfgs) && Redeliveries(states, events, cfgs) && i + 1 < |states|
    requires OnTheWay(states[i], SlotStates(events), first)
    ensures OnTheWay(states[i + 1], SlotStates(events), first)
  {
    assert RanAt(states, events, cfgs, i);
    RunStaysOnTheWay(states[i], events, cfgs[i], states[i + 1], first);
  }

  lemma StartIsOnTheWay(db: Db, us: Updates)
    requires Proper(db.slots, us) && KindsDisjoint(db.slots, us)
    ensures OnTheWay(db, us, Stored(db.cursor)) && (Stored(db.cursor).None? ==> OnTheWay(db, us, None))
  {
    var first := Stored(db.cursor);
    if first.Some? {
      var none: Parents := map[];
      assert Children(none, first.value) == {};
      assert WalkedOver(db, first, first.value, none);
    }
  }

  lemma {:induction false} RedeliveriesStayOnTheWay(states: seq<Db>, events: Events, cfgs: seq<PipelineConfig>, i: nat)
    requires FullRuns(cfgs) && Redeliveries(states, events, cfgs) && i < |states|
    requires Proper(states[0].slots, SlotStates(events)) && KindsDisjoint(states[0].slots, SlotStates(events))
    ensures OnTheWay(states[i], SlotStates(events), Stored(states[0].cursor))
  {
    if i > 0 {
      RedeliveriesStayOnTheWay(states, events, cfgs, i - 1);
      NextStaysOnTheWay(states, events, cfgs, i - 1, Stored(states[0].cursor));
    } else {
      StartIsOnTheWay(states[0], SlotStates(events));
    }
  }

  /** A watermark that equals some walk over the grown map is where the walk it came from ends there. */
  lemma Settled(m: Parents, later: Parents, a: int, b: int)
    requires Extends(m, later) && Ordered(later) && NoForks(later) && Walk(m, a) == Walk(later, b)
    ensures Walk(later, a) == Walk(m, a)
  {
    WalkNeverDrops(later, b);
    StuckIff(later, Walk(m, a));
    WalkResumes(m, later, a);
  }

  /** The last run, which completes, catches up from wherever the runs before it left the watermark. */
  lemma LastRunWalks(db: Db, batches: Batches, cfg: PipelineConfig, d: Db, first: Option<int>, a: int, m: Parents)
    requires TracksWatermark(cfg) && Exec(db, batches, cfg) == Some(d)
    requires OnTheWay(db, SlotStates(Flatten(batches)), None) || OnTheWay(db, SlotStates(Flatten(batches)), first)
    requires AnyFinalized(SlotStates(Flatten(batches))) && WalkedOver(d, first, a, m)
    ensures Stored(d.cursor) == Some(Walk(FinalizedParents(d.slots), a))
  {
    RunCatchesUp(db, batches, cfg, d);
    ExecTables(db, batches, cfg, d);
    Settled(m, FinalizedParents(d.slots), a, FirstSeed(Stored(db.cursor), db.slots, Reports(batches)).value);
  }

  /**
   After any crashes, under any configurations, one complete redelivery that tracks the watermark and has a finalized
   report ends with the watermark of one walk over all finalized rows: from the watermark stored at the start or, if
   there was none, from a finalized row, to which the watermark, a finalized row itself, is joined.
   */
  lemma RedeliveryRestoresWatermark(states: seq<Db>, events: Events, cfgs: seq<PipelineConfig>, d: Db) returns (a: int)
    requires FullRuns(cfgs) && Redeliveries(states, events, cfgs)
    requires TracksWatermark(cfgs[|states| - 1]) && Completes(states[|states| - 1], events, cfgs[|states| - 1], d)
    requires Proper(states[0].slots, SlotStates(events)) && KindsDisjoint(states[0].slots, SlotStates(events))
    requires AnyFinalized(SlotStates(events))
    ensures FinalizedParents(d.slots) == FinalizedParents(UpsertAll(states[0].slots, SlotStates(events)))
    ensures Stored(d.cursor) == Some(Walk(FinalizedParents(d.slots), a))
    ensures Stored(states[0].cursor).Some? ==> Stored(states[0].cursor) == Some(a)
    ensures Stored(states[0].cursor).None? ==>
              && a in FinalizedParents(d.slots) && Stored(d.cursor).value in FinalizedParents(d.slots)
              && Linked(FinalizedParents(d.slots), a, Stored(d.cursor).value)
  {
    var last, cfg, first := states[|states| - 1], cfgs[|states| - 1], Stored(states[0].cursor);
    RedeliveryIsComplete(states, events, cfgs, d);
    RedeliveriesStayOnTheWay(states, events, cfgs, |states| - 1);
    RunStaysOnTheWay(last, events, cfg, d, first);
    NothingSkipped(events, cfg);
    ChunksFlatten(events, cfg.batchSize);
    RunCatchesUp(last, Chunks(events, cfg.batchSize), cfg, d);
    var m: Parents;
    a, m :| WalkedOver(d, first, a, m);
    LastRunWalks(last, Chunks(events, cfg.batchSize), cfg, d, first, a, m);
    WalkStaysFinalized(FinalizedParents(d.slots), a);
  }

  lemma WalkStaysFinalized(m: Parents, a: int)
    ensures Linked(m, a, Walk(m, a)) && (a in m ==> Walk(m, a) in m)
  {
    WalkNeverDrops(m, a);
    var k: nat :| Up(m, Walk(m, a), k) == Some(a);
  }

  // ---------------------------------------------------------------- where the first walk sets out

  /** The reports of the first `j` batches. */
  ghost function FirstReports(cs: Batches, j: nat): Updates
    requires j <= |cs|
  {
    SlotStates(Flatten(cs[..j]))
  }

  /** Batch `f` is the first one with a finalized report. */
  ghost predicate FirstAt(cs: Batches, f: nat) {
    && f < |cs| && AnyFinalized(SlotStates(cs[f]))
    && forall i | 0 <= i < f :: !AnyFinalized(SlotStates(cs[i]))
  }

  /** The slot table at the first advance of a run that begins with `t`. */
  ghost function SeedTable(t: SlotTable, cs: Batches, f: nat): SlotTable
    requires f < |cs|
  {
    UpsertAll(t, FirstReports(cs, f + 1))
  }

  /**
   Between two runs: while no watermark is stored, the first advance will find the same table as in a run from the
   start; once one is stored, it came from the lowest finalized slot of that table.
   */
  ghost predicate Seeded(db: Db, us: Updates, t: SlotTable, cs: Batches, f: nat)
    requires f < |cs|
  {
    && OnTheWay(db, us, None)
    && if Stored(db.cursor).None? then SeedTable(db.slots, cs, f) == SeedTable(t, cs, f)
       else OnTheWay(db, us, LowestFinalized(SeedTable(t, cs, f)))
  }

  lemma {:induction false} SomeFinalized(cs: Batches) returns (i: nat)
    requires AnyFinalized(SlotStates(Flatten(cs)))
    ensures i < |cs| && AnyFinalized(SlotStates(cs[i]))
  {
    assert cs == [] ==> SlotStates(Flatten(cs)) == [];
    var front, last := cs[..|cs| - 1], cs[|cs| - 1];
    StatesSnoc(cs);
    FinalizedInPart(SlotStates(Flatten(front)), SlotStates(last));
    if AnyFinalized(SlotStates(last)) {
      i := |front|;
    } else {
      i := SomeFinalized(front);
    }
  }

  lemma {:induction false} FirstUpTo(cs: Batches, i: nat) returns (f: nat)
    requires i < |cs| && AnyFinalized(SlotStates(cs[i]))
    ensures FirstAt(cs, f)
  {
    if j: nat :| j < i && AnyFinalized(SlotStates(cs[j])) {
      f := FirstUpTo(cs, j);
    } else {
      f := i;
    }
  }

  lemma FirstReportsGrow(cs: Batches, i: nat, j: nat)
    requires i <= j <= |cs|
    ensures forall u | u in FirstReports(cs, i) :: u in FirstReports(cs, j)
  {
    assert cs[..j] == cs[..i] + cs[i..j];
    FlattenAppend(cs[..i], cs[i..j]);
    SlotStatesAppend(Flatten(cs[..i]), Flatten(cs[i..j]));
  }

  lemma SeedIsThere(t: SlotTable, cs: Batches, f: nat)
    requires FirstAt(cs, f)
    ensures LowestFinalized(SeedTable(t, cs, f)).Some?
  {
    BatchesWithin(cs[..f + 1]);
    assert cs[..f + 1][f] == cs[f];
    var u :| u in SlotStates(cs[f]) && u.finalized;
    assert u in FirstReports(cs, f + 1);
    ReportedIsFinalized(t, FirstReports(cs, f + 1));
  }

  lemma {:induction false} EarlyEffectsKeepAnchor(db: Db, batch: seq<NormalizedEvent>, cfg: PipelineConfig, k: nat,
                                                  d: Db)
    requires k <= 3 && After(db, batch, cfg, k) == Some(d)
    ensures Stored(d.cursor) == Stored(db.cursor)
  {
    if k > 0 { EarlyEffectsKeepAnchor(db, batch, cfg, k - 1, After(db, batch, cfg, k - 1).value); }
  }

  /** The first advance of a run sets out from the lowest slot of the table found there. */
  lemma FirstAdvanceSeeds(mid: Db, batch: seq<NormalizedEvent>, cfg: PipelineConfig, d: Db, us: Updates, seed: int)
    requires TracksWatermark(cfg) && After(mid, batch, cfg, 4) == Some(d)
    requires Stored(mid.cursor).None? && AnyFinalized(SlotStates(batch)) && OnTheWay(d, us, None)
    requires LowestFinalized(d.slots) == Some(seed)
    ensures OnTheWay(d, us, Some(seed))
  {
    BatchAdvances(mid, batch, cfg, d);
    PartsProper(d, us);
    AdvanceWalks(None, d.slots, seed);
    assert WalkedOver(d, Some(seed), seed, FinalizedParents(d.slots));
  }

  /** Inside a run from `db`, after `j` whole batches: no watermark yet, or one that came from the right seed. */
  ghost predicate SeededAfter(db: Db, us: Updates, seed: Option<int>, f: nat, j: nat, d: Db) {
    && OnTheWay(d, us, None)
    && if Stored(d.cursor).None? then Stored(db.cursor).None? && j <= f else OnTheWay(d, us, seed)
  }

  lemma StepSeeded(db: Db, us: Updates, seed: Option<int>, cs: Batches, f: nat, cfg: PipelineConfig, j: nat, mid: Db,
                   d: Db)
    requires TracksWatermark(cfg) && FirstAt(cs, f) && Within(cs, us) && j < |cs|
    requires SeededAfter(db, us, seed, f, j, mid) && After(mid, cs[j], cfg, 4) == Some(d)
    requires j == f && Stored(mid.cursor).None? ==> seed.Some? && LowestFinalized(d.slots) == seed
    ensures SeededAfter(db, us, seed, f, j + 1, d)
  {
    AfterStaysOnTheWay(mid, cs[j], cfg, 4, d, us, None);
    if Stored(mid.cursor).Some? {
      AfterStaysOnTheWay(mid, cs[j], cfg, 4, d, us, seed);
      BatchAdvances(mid, cs[j], cfg, d);
    } else if j < f {
      BatchAdvances(mid, cs[j], cfg, d);
    } else {
      FirstAdvanceSeeds(mid, cs[f], cfg, d, us, seed.value);
    }
  }

  /** Where a run begins: the lowest slot at its first advance is the seed, unless a watermark from it is stored. */
  ghost predicate Starts(db: Db, us: Updates, seed: Option<int>, cs: Batches, f: nat)
    requires f < |cs|
  {
    && seed.Some? && SeededAfter(db, us, seed, f, 0, db)
    && (Stored(db.cursor).None? ==> LowestFinalized(SeedTable(db.slots, cs, f)) == seed)
  }

  lemma SeededStarts(db: Db, us: Updates, t: SlotTable, cs: Batches, f: nat)
    requires FirstAt(cs, f) && Seeded(db, us, t, cs, f)
    ensures Starts(db, us, LowestFinalized(SeedTable(t, cs, f)), cs, f)
  {
    SeedIsThere(t, cs, f);
  }

  lemma {:induction false} ExecSeeded(db: Db, us: Updates, seed: Option<int>, cs: Batches, f: nat, cfg: PipelineConfig,
                                      j: nat, d: Db)
    requires TracksWatermark(cfg) && FirstAt(cs, f) && Within(cs, us) && j <= |cs|
    requires Starts(db, us, seed, cs, f) && Exec(db, cs[..j], cfg) == Some(d)
    ensures SeededAfter(db, us, seed, f, j, d)
  {
    if j > 0 {
      var mid := LastOfPrefix(db, cs, cfg, j, d);
      ExecSeeded(db, us, seed, cs, f, cfg, j - 1, mid);
      if j == f + 1 { ReachesSeedTable(db, cs, f, cfg, d); }
      StepSeeded(db, us, seed, cs, f, cfg, j - 1, mid, d);
    }
  }

  lemma LastOfPrefix(db: Db, cs: Batches, cfg: PipelineConfig, j: nat, d: Db) returns (mid: Db)
    requires 0 < j <= |cs| && Exec(db, cs[..j], cfg) == Some(d)
    ensures Exec(db, cs[..j - 1], cfg) == Some(mid) && After(mid, cs[j - 1], cfg, 4) == Some(d)
  {
    assert cs[..j][..j - 1] == cs[..j - 1] && cs[..j][j - 1] == cs[j - 1];
    mid := Exec(db, cs[..j - 1], cfg).value;
  }

  lemma ReachesSeedTable(db: Db, cs: Batches, f: nat, cfg: PipelineConfig, d: Db)
    requires TracksWatermark(cfg) && f < |cs| && Exec(db, cs[..f + 1], cfg) == Some(d)
    ensures d.slots == SeedTable(db.slots, cs, f)
  {
    ExecTables(db, cs[..f + 1], cfg, d);
  }

  lemma Absorbed(db: Db, d: Db, t: SlotTable, cs: Batches, f: nat, j: nat)
    requires j <= f + 1 <= |cs| && d.slots == UpsertAll(db.slots, FirstReports(cs, j))
    requires SeedTable(db.slots, cs, f) == SeedTable(t, cs, f)
    ensures SeedTable(d.slots, cs, f) == SeedTable(t, cs, f)
  {
    FirstReportsGrow(cs, j, f + 1);
    PartIsAbsorbed(db.slots, FirstReports(cs, j), FirstReports(cs, f + 1));
  }

  lemma CutSeeded(db: Db, us: Updates, t: SlotTable, cs: Batches, f: nat, cfg: PipelineConfig, j: nat, k: nat, d: Db)
    requires TracksWatermark(cfg) && FirstAt(cs, f) && Within(cs, us) && j < |cs| && k <= 4
    requires Seeded(db, us, t, cs, f) && Cut(db, cs, cfg, j, k) == Some(d)
    ensures Seeded(d, us, t, cs, f)
  {
    var seed := LowestFinalized(SeedTable(t, cs, f));
    SeededStarts(db, us, t, cs, f);
    if k == 4 {
      WholeBatchesSeeded(db, us, seed, cs, f, cfg, j, d);
    } else {
      CutBatchSeeded(db, us, seed, cs, f, cfg, j, k, d);
    }
    if Stored(d.cursor).None? {
      CutTables(db, cs, cfg, j, k, d);
      Absorbed(db, d, t, cs, f, if k >= 3 then j + 1 else j);
    }
  }

  lemma WholeBatchesSeeded(db: Db, us: Updates, seed: Option<int>, cs: Batches, f: nat, cfg: PipelineConfig, j: nat,
                           d: Db)
    requires TracksWatermark(cfg) && FirstAt(cs, f) && Within(cs, us) && j < |cs|
    requires Starts(db, us, seed, cs, f) && Cut(db, cs, cfg, j, 4) == Some(d)
    ensures SeededAfter(db, us, seed, f, j + 1, d)
  {
    assert cs[..j + 1] == cs[..j] + [cs[j]];
    ExecSnoc(db, cs[..j], cfg, cs[j], Exec(db, cs[..j], cfg).value);
    ExecSeeded(db, us, seed, cs, f, cfg, j + 1, d);
  }

  lemma CutBatchSeeded(db: Db, us: Updates, seed: Option<int>, cs: Batches, f: nat, cfg: PipelineConfig, j: nat, k: nat,
                       d: Db)
    requires TracksWatermark(cfg) && FirstAt(cs, f) && Within(cs, us) && j < |cs| && k < 4
    requires Starts(db, us, seed, cs, f) && Cut(db, cs, cfg, j, k) == Some(d)
    ensures SeededAfter(db, us, seed, f, j, d)
  {
    var mid := Exec(db, cs[..j], cfg).value;
    ExecSeeded(db, us, seed, cs, f, cfg, j, mid);
    PartSeeded(db, us, seed, cs, f, cfg, j, k, mid, d);
  }

  lemma PartSeeded(db: Db, us: Updates, seed: Option<int>, cs: Batches, f: nat, cfg: PipelineConfig, j: nat, k: nat,
                   mid: Db, d: Db)
    requires Within(cs, us) && j < |cs| && k <= 3
    requires SeededAfter(db, us, seed, f, j, mid) && After(mid, cs[j], cfg, k) == Some(d)
    ensures SeededAfter(db, us, seed, f, j, d)
  {
    EarlyEffectsKeepAnchor(mid, cs[j], cfg, k, d);
    AfterStaysOnTheWay(mid, cs[j], cfg, k, d, us, None);
    if Stored(mid.cursor).Some? { AfterStaysOnTheWay(mid, cs[j], cfg, k, d, us, seed); }
  }

  /** Tracking configurations with one batch size; where they resume from, which they ignore, may differ. */
  ghost predicate Alike(cfgs: seq<PipelineConfig>, n: nat) {
    n > 0 && forall i | 0 <= i < |cfgs| :: TracksWatermark(cfgs[i]) && !cfgs[i].useSlotResume && cfgs[i].batchSize == n
  }

  ghost predicate SeededFor(db: Db, events: Events, t: SlotTable, n: nat, f: nat) {
    n > 0 && FirstAt(Chunks(events, n), f) && Seeded(db, SlotStates(events), t, Chunks(events, n), f)
  }

  lemma RunSeeded(db: Db, events: Events, cfg: PipelineConfig, n: nat, d: Db, t: SlotTable, f: nat)
    requires TracksWatermark(cfg) && !cfg.useSlotResume && cfg.batchSize == n > 0 && RunFrom(db, events, cfg, d)
    requires SeededFor(db, events, t, n, f)
    ensures SeededFor(d, events, t, n, f)
    ensures Completes(db, events, cfg, d) ==> Stored(d.cursor).Some?
  {
    var cs, us := Chunks(events, n), SlotStates(events);
    NothingSkipped(events, cfg);
    ChunksFlatten(events, n);
    BatchesWithin(cs);
    if Completes(db, events, cfg, d) {
      assert cs[..|cs|] == cs;
      SeededStarts(db, us, t, cs, f);
      ExecSeeded(db, us, LowestFinalized(SeedTable(t, cs, f)), cs, f, cfg, |cs|, d);
    } else {
      var j, k :| 0 <= j < |cs| && 0 <= k <= 4 && Cut(db, cs, cfg, j, k) == Some(d);
      CutSeeded(db, us, t, cs, f, cfg, j, k, d);
    }
  }

  lemma NextSeeded(states: seq<Db>, events: Events, cfgs: seq<PipelineConfig>, n: nat, f: nat, i: nat, t: SlotTable)
    requires Alike(cfgs, n) && FullRuns(cfgs) && Redeliveries(states, events, cfgs) && i + 1 < |states|
    requires SeededFor(states[i], events, t, n, f)
    ensures SeededFor(states[i + 1], events, t, n, f)
  {
    assert RanAt(states, events, cfgs, i);
    RunSeeded(states[i], events, cfgs[i], n, states[i + 1], t, f);
  }

  lemma {:induction false} RedeliveriesSeeded(states: seq<Db>, events: Events, cfgs: seq<PipelineConfig>, n: nat,
                                              f: nat, i: nat)
    requires Alike(cfgs, n) && FullRuns(cfgs) && Redeliveries(states, events, cfgs) && i < |states|
    requires SeededFor(states[0], events, states[0].slots, n, f)
    ensures SeededFor(states[i], events, states[0].slots, n, f)
  {
    if i > 0 {
      RedeliveriesSeeded(states, events, cfgs, n, f, i - 1);
      NextSeeded(states, events, cfgs, n, f, i - 1, states[0].slots);
    }
  }

  /** The seed of an uninterrupted run from `t`. */
  ghost function SeedFor(t: SlotTable, events: Events, n: nat, f: nat): Option<int>
    requires n > 0 && f < |Chunks(events, n)|
  {
    LowestFinalized(SeedTable(t, Chunks(events, n), f))
  }

  lemma SeededRunWalks(db: Db, events: Events, cfg: PipelineConfig, n: nat, d: Db, t: SlotTable, f: nat)
    requires TracksWatermark(cfg) && !cfg.useSlotResume && cfg.batchSize == n > 0 && Completes(db, events, cfg, d)
    requires SeededFor(db, events, t, n, f) && AnyFinalized(SlotStates(events))
    ensures SeedFor(t, events, n, f).Some?
    ensures Stored(d.cursor) == Some(Walk(FinalizedParents(d.slots), SeedFor(t, events, n, f).value))
  {
    SeedIsThere(t, Chunks(events, n), f);
    RunSeeded(db, events, cfg, n, d, t, f);
    NothingSkipped(events, cfg);
    ChunksFlatten(events, n);
    var a, m :| WalkedOver(d, SeedFor(t, events, n, f), a, m);
    LastRunWalks(db, Chunks(events, n), cfg, d, SeedFor(t, events, n, f), a, m);
  }

  /** With no watermark at the start, every redelivery walks from the seed of an uninterrupted run. */
  lemma FreshRedeliveryWalks(states: seq<Db>, events: Events, cfgs: seq<PipelineConfig>, n: nat, f: nat, d: Db)
    requires Alike(cfgs, n) && FullRuns(cfgs) && Redeliveries(states, events, cfgs)
    requires Completes(states[|states| - 1], events, cfgs[|states| - 1], d)
    requires SeededFor(states[0], events, states[0].slots, n, f) && AnyFinalized(SlotStates(events))
    ensures SeedFor(states[0].slots, events, n, f).Some?
    ensures Stored(d.cursor) == Some(Walk(FinalizedParents(d.slots), SeedFor(states[0].slots, events, n, f).value))
  {
    RedeliveriesSeeded(states, events, cfgs, n, f, |states| - 1);
    SeededRunWalks(states[|states| - 1], events, cfgs[|states| - 1], n, d, states[0].slots, f);
  }

  lemma StartIsSeeded(db: Db, events: Events, n: nat) returns (f: nat)
    requires n > 0 && AnyFinalized(SlotStates(events)) && Stored(db.cursor).None?
    requires Proper(db.slots, SlotStates(events)) && KindsDisjoint(db.slots, SlotStates(events))
    ensures SeededFor(db, events, db.slots, n, f)
  {
    ChunksFlatten(events, n);
    var i := SomeFinalized(Chunks(events, n));
    f := FirstUpTo(Chunks(events, n), i);
    StartIsOnTheWay(db, SlotStates(events));
  }

  /** After any crashes, the watermark is that of one uninterrupted run from the same state. */
  lemma WatermarkIsThatOfOneRun(states: seq<Db>, events: Events, cfgs: seq<PipelineConfig>, n: nat, d: Db, once: Db)
    requires Alike(cfgs, n) && FullRuns(cfgs) && Redeliveries(states, events, cfgs)
    requires Completes(states[|states| - 1], events, cfgs[|states| - 1], d)
    requires Completes(states[0], events, cfgs[0], once)
    requires Proper(states[0].slots, SlotStates(events)) && KindsDisjoint(states[0].slots, SlotStates(events))
    requires AnyFinalized(SlotStates(events))
    ensures Stored(d.cursor) == Stored(once.cursor)
  {
    RedeliveryIsComplete(states, events, cfgs, d);
    RedeliveryIsComplete([states[0]], events, [cfgs[0]], once);
    if Stored(states[0].cursor).Some? {
      var a := RedeliveryRestoresWatermark(states, events, cfgs, d);
      var b := RedeliveryRestoresWatermark([states[0]], events, [cfgs[0]], once);
    } else {
      var f := StartIsSeeded(states[0], events, n);
      FreshRedeliveryWalks(states, events, cfgs, n, f, d);
      FreshRedeliveryWalks([states[0]], events, [cfgs[0]], n, f, once);
    }
  }

  // ---------------------------------------------------------------- the rest of the cursor row

  /**
   On the way from a cursor with persisted slot `p` and head `h`: neither is below what it was or above what the
   highest slot `top` and the final table `final` make of it.
   */
  ghost predicate Between(db: Db, p: Option<int>, h: Option<int>, top: int, us: Updates, final: SlotTable) {
    && UpsertAll(db.slots, us) == final
    && AtMost(p, PersistedOf(db.cursor)) && AtMost(PersistedOf(db.cursor), Greatest(p, Some(top)))
    && AtMost(h, HeadOf(db.cursor)) && AtMost(HeadOf(db.cursor), Greatest(h, HighestFinalized(final)))
  }

  lemma AfterStaysBetween(db: Db, batch: seq<NormalizedEvent>, cfg: PipelineConfig, k: nat, d: Db, p: Option<int>,
                          h: Option<int>, top: int, us: Updates, final: SlotTable)
    requires batch != [] && k <= 4 && After(db, batch, cfg, k) == Some(d) && Between(db, p, h, top, us, final)
    requires MaxSlot(batch) <= top && forall u | u in SlotStates(batch) :: u in us
    ensures Between(d, p, h, top, us, final)
  {
    PartMovesCursor(db, batch, cfg, k, d);
    AfterAbsorbed(db, batch, cfg, k, d, us);
    HighestGrows(d.slots, us);
  }

  lemma AfterAbsorbed(db: Db, batch: seq<NormalizedEvent>, cfg: PipelineConfig, k: nat, d: Db, us: Updates)
    requires k <= 4 && After(db, batch, cfg, k) == Some(d) && forall u | u in SlotStates(batch) :: u in us
    ensures UpsertAll(d.slots, us) == UpsertAll(db.slots, us)
  {
    AfterTables(db, batch, cfg, k, d);
    PartIsAbsorbed(db.slots, SlotStates(batch), us);
  }

  /** Batches of a delivery: none is empty, and their slots and reports are among those delivered. */
  ghost predicate Delivered(cs: Batches, top: int, us: Updates) {
    Within(cs, us) && forall i | 0 <= i < |cs| :: cs[i] != [] && MaxSlot(cs[i]) <= top
  }

  lemma {:induction false} ExecStaysBetween(db: Db, cs: Batches, cfg: PipelineConfig, d: Db, p: Option<int>,
                                            h: Option<int>, top: int, us: Updates, final: SlotTable)
    requires Exec(db, cs, cfg) == Some(d) && Between(db, p, h, top, us, final) && Delivered(cs, top, us)
    ensures Between(d, p, h, top, us, final)
  {
    if cs != [] {
      var front, last := cs[..|cs| - 1], cs[|cs| - 1];
      assert Delivered(front, top, us);
      ExecStaysBetween(db, front, cfg, Exec(db, front, cfg).value, p, h, top, us, final);
      AfterStaysBetween(Exec(db, front, cfg).value, last, cfg, 4, d, p, h, top, us, final);
    }
  }

  lemma ChunksDelivered(events: Events, n: nat)
    requires n > 0 && events != []
    ensures Delivered(Chunks(events, n), MaxSlot(events), SlotStates(events))
  {
    var cs := Chunks(events, n);
    ChunksFlatten(events, n);
    BatchesWithin(cs);
    ChunksNonEmpty(events, n);
    ChunkMembers(events, n);
    MaxSlotBounds(events);
    forall i | 0 <= i < |cs| ensures MaxSlot(cs[i]) <= MaxSlot(events) {
      MaxSlotBounds(cs[i]);
      var e: NormalizedEvent :| e in cs[i] && e.identity.slot == MaxSlot(cs[i]);
      assert cs[i] in cs && e in events;
    }
  }

  /** On the way from `start`, delivering `events`. */
  ghost predicate Underway(db: Db, start: Db, events: Events) {
    events != [] && Between(db, PersistedOf(start.cursor), HeadOf(start.cursor), MaxSlot(events), SlotStates(events),
                            UpsertAll(start.slots, SlotStates(events)))
  }

  lemma RunStaysUnderway(db: Db, start: Db, events: Events, cfg: PipelineConfig, d: Db)
    requires cfg.batchSize > 0 && !cfg.useSlotResume && RunFrom(db, events, cfg, d) && Underway(db, start, events)
    ensures Underway(d, start, events)
  {
    var cs, us, top := Chunks(events, cfg.batchSize), SlotStates(events), MaxSlot(events);
    var p, h, final := PersistedOf(start.cursor), HeadOf(start.cursor), UpsertAll(start.slots, us);
    NothingSkipped(events, cfg);
    ChunksDelivered(events, cfg.batchSize);
    if Completes(db, events, cfg, d) {
      ExecStaysBetween(db, cs, cfg, d, p, h, top, us, final);
    } else {
      var j, k :| 0 <= j < |cs| && 0 <= k <= 4 && Cut(db, cs, cfg, j, k) == Some(d);
      assert Delivered(cs[..j], top, us);
      var mid := Exec(db, cs[..j], cfg).value;
      ExecStaysBetween(db, cs[..j], cfg, mid, p, h, top, us, final);
      AfterStaysBetween(mid, cs[j], cfg, k, d, p, h, top, us, final);
    }
  }

  lemma NextStaysUnderway(states: seq<Db>, events: Events, cfgs: seq<PipelineConfig>, i: nat)
    requires FullRuns(cfgs) && Redeliveries(states, events, cfgs) && i + 1 < |states|
    requires Underway(states[i], states[0], events)
    ensures Underway(states[i + 1], states[0], events)
  {
    assert RanAt(states, events, cfgs, i);
    RunStaysUnderway(states[i], states[0], events, cfgs[i], states[i + 1]);
  }

  lemma StartIsUnderway(start: Db, events: Events)
    requires events != []
    ensures Underway(start, start, events)
  {
  }

  lemma {:induction false} RedeliveriesStayUnderway(states: seq<Db>, events: Events, cfgs: seq<PipelineConfig>, i: nat)
    requires FullRuns(cfgs) && Redeliveries(states, events, cfgs) && i < |states| && events != []
    ensures Underway(states[i], states[0], events)
  {
    if i > 0 {
      RedeliveriesStayUnderway(states, events, cfgs, i - 1);
      NextStaysUnderway(states, events, cfgs, i - 1);
    } else {
      StartIsUnderway(states[0], events);
    }
  }

  /** A completed run leaves persisted slot and head at the upper bounds. */
  lemma CompletedCursor(db: Db, start: Db, events: Events, cfg: PipelineConfig, d: Db)
    requires cfg.batchSize > 0 && !cfg.useSlotResume && TracksWatermark(cfg) && Completes(db, events, cfg, d)
    requires AnyFinalized(SlotStates(events)) && Underway(db, start, events)
    ensures PersistedOf(d.cursor) == Greatest(PersistedOf(start.cursor), Some(MaxSlot(events)))
    ensures HeadOf(d.cursor)
         == Greatest(HeadOf(start.cursor), HighestFinalized(UpsertAll(start.slots, SlotStates(events))))
  {
    CompletedMoves(db, events, cfg, d);
    CompleteTables(db, events, cfg, d);
    MeetsBounds(db, start, events, d);
  }

  lemma Squeezed(low: Option<int>, x: Option<int>, bound: Option<int>)
    requires AtMost(low, x) && AtMost(x, Greatest(low, bound))
    ensures Greatest(x, bound) == Greatest(low, bound)
  {
  }

  lemma MeetsBounds(db: Db, start: Db, events: Events, d: Db)
    requires Underway(db, start, events) && d.slots == UpsertAll(db.slots, SlotStates(events))
    requires PersistedOf(d.cursor) == Greatest(PersistedOf(db.cursor), Some(MaxSlot(events)))
    requires HeadOf(d.cursor) == Greatest(HeadOf(db.cursor), HighestFinalized(d.slots))
    ensures PersistedOf(d.cursor) == Greatest(PersistedOf(start.cursor), Some(MaxSlot(events)))
    ensures HeadOf(d.cursor)
         == Greatest(HeadOf(start.cursor), HighestFinalized(UpsertAll(start.slots, SlotStates(events))))
  {
    Squeezed(PersistedOf(start.cursor), PersistedOf(db.cursor), Some(MaxSlot(events)));
    Squeezed(HeadOf(start.cursor), HeadOf(db.cursor), HighestFinalized(d.slots));
  }

  /** What a completed run makes of persisted slot and head, from any state. */
  lemma CompletedMoves(db: Db, events: Events, cfg: PipelineConfig, d: Db)
    requires cfg.batchSize > 0 && !cfg.useSlotResume && TracksWatermark(cfg) && Completes(db, events, cfg, d)
    requires AnyFinalized(SlotStates(events)) && events != []
    ensures PersistedOf(d.cursor) == Greatest(PersistedOf(db.cursor), Some(MaxSlot(events)))
    ensures HeadOf(d.cursor) == Greatest(HeadOf(db.cursor), HighestFinalized(d.slots))
  {
    var cs := Chunks(events, cfg.batchSize);
    NothingSkipped(events, cfg);
    ChunksFlatten(events, cfg.batchSize);
    ChunksNonEmpty(events, cfg.batchSize);
    ExecMovesPersisted(db, cs, cfg, d);
    ExecMovesHead(db, cs, cfg, d);
  }

  /** All but the watermark of the state in which a completed redelivery from `start` ends. */
  ghost predicate Ends(d: Db, start: Db, events: Events)
    requires events != []
  {
    && d.events == InsertAll(start.events, events)
    && d.slots == UpsertAll(start.slots, SlotStates(events))
    && PersistedOf(d.cursor) == Greatest(PersistedOf(start.cursor), Some(MaxSlot(events)))
    && HeadOf(d.cursor) == Greatest(HeadOf(start.cursor), HighestFinalized(UpsertAll(start.slots, SlotStates(events))))
  }

  lemma RedeliveryEnds(states: seq<Db>, events: Events, cfgs: seq<PipelineConfig>, d: Db)
    requires FullRuns(cfgs) && Redeliveries(states, events, cfgs) && TracksWatermark(cfgs[|states| - 1])
    requires Completes(states[|states| - 1], events, cfgs[|states| - 1], d)
    requires AnyFinalized(SlotStates(events)) && events != []
    ensures Ends(d, states[0], events)
  {
    RedeliveryIsComplete(states, events, cfgs, d);
    RedeliveryMovesCursor(states, events, cfgs, d);
  }

  lemma RedeliveryMovesCursor(states: seq<Db>, events: Events, cfgs: seq<PipelineConfig>, d: Db)
    requires FullRuns(cfgs) && Redeliveries(states, events, cfgs) && TracksWatermark(cfgs[|states| - 1])
    requires Completes(states[|states| - 1], events, cfgs[|states| - 1], d)
    requires AnyFinalized(SlotStates(events)) && events != []
    ensures PersistedOf(d.cursor) == Greatest(PersistedOf(states[0].cursor), Some(MaxSlot(events)))
    ensures HeadOf(d.cursor)
         == Greatest(HeadOf(states[0].cursor), HighestFinalized(UpsertAll(states[0].slots, SlotStates(events))))
  {
    RedeliveriesStayUnderway(states, events, cfgs, |states| - 1);
    CompletedCursor(states[|states| - 1], states[0], events, cfgs[|states| - 1], d);
  }

  lemma SameEnd(a: Db, b: Db, start: Db, events: Events)
    requires events != [] && Ends(a, start, events) && Ends(b, start, events) && Stored(a.cursor) == Stored(b.cursor)
    ensures a == b
  {
  }

  /**
   After any crashes, a redelivery that completes leaves the whole database of one uninterrupted run from the same
   state: events, slot rows and the cursor row with persisted slot, watermark and head.
   */
  lemma RedeliveryIsOneRun(states: seq<Db>, events: Events, cfgs: seq<PipelineConfig>, n: nat, d: Db, once: Db)
    requires Alike(cfgs, n) && FullRuns(cfgs) && Redeliveries(states, events, cfgs)
    requires Completes(states[|states| - 1], events, cfgs[|states| - 1], d)
    requires Completes(states[0], events, cfgs[0], once)
    requires Proper(states[0].slots, SlotStates(events)) && KindsDisjoint(states[0].slots, SlotStates(events))
    requires AnyFinalized(SlotStates(events))
    ensures d == once
  {
    assert events == [] ==> SlotStates(events) == [];
    RedeliveryEnds(states, events, cfgs, d);
    RedeliveryEnds([states[0]], events, [cfgs[0]], once);
    WatermarkIsThatOfOneRun(states, events, cfgs, n, d, once);
    SameEnd(d, once, states[0], events);
  }
}
