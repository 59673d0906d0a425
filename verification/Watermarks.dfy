/**
 The watermark over whole deliveries: batches of slot reports are recorded one after the other, and the watermark is
 advanced after each batch that holds a finalized report, by the Postgres statement or by the in-memory reference store.
 */
module Watermarks {
  import opened Base
  import opened SlotChain
  import opened SlotTables

  type Updates = seq<SlotStateUpdate>

  ghost function AdvancedAnchor(anchor: Option<int>, t: SlotTable): Option<int> {
    Greatest(anchor, Watermark(anchor, t))
  }

  /** The table after recording all batches. */
  ghost function TableAfter(t: SlotTable, batches: seq<Updates>): SlotTable {
    UpsertAll(t, Flatten(batches))
  }

  ghost function MapAfter(t: SlotTable, batches: seq<Updates>): Parents {
    FinalizedParents(TableAfter(t, batches))
  }

  /** The stored watermark after all batches; a batch without a finalized report leaves it alone. */
  ghost function AnchorAfter(anchor: Option<int>, t: SlotTable, batches: seq<Updates>): Option<int> {
    if batches == [] then anchor
    else
      var before := AnchorAfter(anchor, t, batches[..|batches| - 1]);
      if AnyFinalized(batches[|batches| - 1]) then AdvancedAnchor(before, TableAfter(t, batches)) else before
  }

  /** Where the first walk sets out: the stored watermark, or the lowest finalized slot at the first advance. */
  ghost function FirstSeed(anchor: Option<int>, t: SlotTable, batches: seq<Updates>): Option<int> {
    if anchor.Some? || batches == [] then anchor
    else
      var before := FirstSeed(anchor, t, batches[..|batches| - 1]);
      if before.Some? then before
      else if AnyFinalized(batches[|batches| - 1]) then LowestFinalized(TableAfter(t, batches)) else None
  }

  /** The number of batches up to and with the last one that advances the watermark. */
  ghost function LastAdvance(batches: seq<Updates>): (n: nat)
    ensures n <= |batches|
  {
    if batches == [] then 0
    else if AnyFinalized(batches[|batches| - 1]) then |batches|
    else LastAdvance(batches[..|batches| - 1])
  }

  ghost function SinceAdvance(batches: seq<Updates>): Updates {
    Flatten(batches[LastAdvance(batches)..])
  }

  /** Reports of parents agree, and the finalized slots form chains: parents below their slots, no forks. */
  ghost predicate Proper(t: SlotTable, us: Updates) {
    ParentsAgree(t, us) && Ordered(FinalizedParents(UpsertAll(t, us))) && NoForks(FinalizedParents(UpsertAll(t, us)))
  }

  /** A report hangs a finalized slot under `w`. */
  ghost predicate HungUnder(t: SlotTable, us: Updates, w: int) {
    exists u :: u in us && u.slot in FinalizedParents(t) && u.parentSlot == Some(w)
  }

  // ---------------------------------------------------------------- prefixes

  lemma FlattenFront(batches: seq<Updates>)
    requires batches != []
    ensures Flatten(batches) == Flatten(batches[..|batches| - 1]) + batches[|batches| - 1]
  {
    assert batches == batches[..|batches| - 1] + [batches[|batches| - 1]];
    FlattenSnoc(batches[..|batches| - 1], batches[|batches| - 1]);
  }

  lemma ProperPrefix(t: SlotTable, a: Updates, b: Updates)
    requires Proper(t, a + b)
    ensures Proper(t, a) && Proper(UpsertAll(t, a), b) && UpsertAll(t, a + b) == UpsertAll(UpsertAll(t, a), b)
    ensures Extends(FinalizedParents(UpsertAll(t, a)), FinalizedParents(UpsertAll(t, a + b)))
  {
    UpsertAllAppend(t, a, b);
    AgreementSplits(t, a, b);
    AgreeingTablesExtend(UpsertAll(t, a), b);
    SubmapOrdered(FinalizedParents(UpsertAll(t, a)), FinalizedParents(UpsertAll(t, a + b)));
  }

  lemma ProperUpTo(t: SlotTable, batches: seq<Updates>, n: nat)
    requires Proper(t, Flatten(batches)) && n <= |batches|
    ensures Proper(t, Flatten(batches[..n])) && Proper(TableAfter(t, batches[..n]), Flatten(batches[n..]))
    ensures TableAfter(t, batches) == UpsertAll(TableAfter(t, batches[..n]), Flatten(batches[n..]))
    ensures Extends(MapAfter(t, batches[..n]), MapAfter(t, batches))
  {
    assert batches == batches[..n] + batches[n..];
    FlattenAppend(batches[..n], batches[n..]);
    ProperPrefix(t, Flatten(batches[..n]), Flatten(batches[n..]));
  }

  lemma NoAdvance(anchor: Option<int>, t: SlotTable, front: seq<Updates>, last: Updates)
    requires !AnyFinalized(last)
    ensures AnchorAfter(anchor, t, front + [last]) == AnchorAfter(anchor, t, front)
    ensures FirstSeed(anchor, t, front + [last]) == FirstSeed(anchor, t, front)
  {
    assert (front + [last])[..|front|] == front;
  }

  lemma LastAdvanceSnoc(front: seq<Updates>, last: Updates)
    requires !AnyFinalized(last)
    ensures LastAdvance(front + [last]) == LastAdvance(front)
    ensures SinceAdvance(front + [last]) == SinceAdvance(front) + last
  {
    var n := LastAdvance(front);
    assert (front + [last])[..|front|] == front;
    assert (front + [last])[n..] == front[n..] + [last];
    FlattenSnoc(front[n..], last);
  }

  lemma AllUpToLast(batches: seq<Updates>)
    requires LastAdvance(batches) == |batches|
    ensures SinceAdvance(batches) == [] && (batches != [] ==> AnyFinalized(batches[|batches| - 1]))
  {
    assert batches[|batches|..] == [];
  }

  lemma {:induction false} AnchorUnchanged(anchor: Option<int>, t: SlotTable, batches: seq<Updates>)
    ensures AnchorAfter(anchor, t, batches) == AnchorAfter(anchor, t, batches[..LastAdvance(batches)])
    ensures FirstSeed(anchor, t, batches) == FirstSeed(anchor, t, batches[..LastAdvance(batches)])
  {
    var n := LastAdvance(batches);
    if n == |batches| {
      assert batches[..n] == batches;
    } else {
      var front, last := batches[..|batches| - 1], batches[|batches| - 1];
      AnchorUnchanged(anchor, t, front);
      assert front[..n] == batches[..n];
      assert batches == front + [last];
      NoAdvance(anchor, t, front, last);
    }
  }

  lemma {:induction false} NothingFinalizedSince(batches: seq<Updates>)
    ensures LastAdvance(batches) > 0 ==> AnyFinalized(batches[LastAdvance(batches) - 1])
    ensures !AnyFinalized(SinceAdvance(batches))
  {
    if LastAdvance(batches) == |batches| {
      AllUpToLast(batches);
    } else {
      var front, last := batches[..|batches| - 1], batches[|batches| - 1];
      NothingFinalizedSince(front);
      assert batches == front + [last];
      LastAdvanceSnoc(front, last);
    }
  }

  /** Since the last advance there is no finalized report, and nothing has moved the watermark. */
  lemma UnchangedSince(anchor: Option<int>, t: SlotTable, batches: seq<Updates>)
    ensures var n := LastAdvance(batches);
            && AnchorAfter(anchor, t, batches) == AnchorAfter(anchor, t, batches[..n])
            && FirstSeed(anchor, t, batches) == FirstSeed(anchor, t, batches[..n])
            && (n > 0 ==> AnyFinalized(batches[n - 1]))
            && !AnyFinalized(SinceAdvance(batches))
  {
    AnchorUnchanged(anchor, t, batches);
    NothingFinalizedSince(batches);
  }

  lemma {:induction false} AdvancesIff(batches: seq<Updates>)
    ensures LastAdvance(batches) > 0 <==> AnyFinalized(Flatten(batches))
  {
    if batches != [] {
      FlattenFront(batches);
      AdvancesIff(batches[..|batches| - 1]);
      assert forall u :: u in Flatten(batches) <==>
                           u in Flatten(batches[..|batches| - 1]) || u in batches[|batches| - 1];
    }
  }

  // ---------------------------------------------------------------- one advance

  lemma AdvanceWalks(anchor: Option<int>, t: SlotTable, seed: int)
    requires Ordered(FinalizedParents(t)) && NoForks(FinalizedParents(t)) && Seed(anchor, t) == Some(seed)
    ensures AdvancedAnchor(anchor, t) == Some(Walk(FinalizedParents(t), seed))
  {
    WalkIsClosureMax(FinalizedParents(t), seed);
    WalkNeverDrops(FinalizedParents(t), seed);
  }

  lemma AdvanceResumes(t: SlotTable, later: SlotTable, seed: int)
    requires Extends(FinalizedParents(t), FinalizedParents(later))
    requires Ordered(FinalizedParents(later)) && NoForks(FinalizedParents(later))
    ensures AdvancedAnchor(Some(Walk(FinalizedParents(t), seed)), later) == Some(Walk(FinalizedParents(later), seed))
  {
    var w := Walk(FinalizedParents(t), seed);
    AdvanceWalks(Some(w), later, w);
    WalkResumes(FinalizedParents(t), FinalizedParents(later), seed);
  }

  lemma ReportedIsFinalized(t: SlotTable, us: Updates)
    requires AnyFinalized(us)
    ensures LowestFinalized(UpsertAll(t, us)).Some?
  {
    var u :| u in us && u.finalized;
    FlagsAfter(t, us, u.slot);
    assert u.slot in FinalizedParents(UpsertAll(t, us)).Keys;
  }

  lemma SeedIsKnown(anchor: Option<int>, t: SlotTable, batches: seq<Updates>)
    requires LastAdvance(batches) > 0
    ensures FirstSeed(anchor, t, batches).Some?
  {
    var n := LastAdvance(batches);
    var done := batches[..n];
    UnchangedSince(anchor, t, batches);
    FlattenFront(done);
    assert AnyFinalized(Flatten(done)) by {
      var u: SlotStateUpdate :| u in done[n - 1] && u.finalized;
      assert u in Flatten(done);
    }
    ReportedIsFinalized(t, Flatten(done));
  }

  /** What an advance starts from: the state right after the advance before it, or the initial one. */
  lemma BeforeAdvance(anchor: Option<int>, t: SlotTable, batches: seq<Updates>)
    requires batches != [] && AnyFinalized(batches[|batches| - 1])
    ensures var n := LastAdvance(batches[..|batches| - 1]);
            && n < |batches| && (n > 0 ==> AnyFinalized(batches[n - 1]))
            && AnchorAfter(anchor, t, batches)
                 == AdvancedAnchor(if n == 0 then anchor else AnchorAfter(anchor, t, batches[..n]),
                                   TableAfter(t, batches))
            && FirstSeed(anchor, t, batches)
                 == if n == 0 then Seed(anchor, TableAfter(t, batches)) else FirstSeed(anchor, t, batches[..n])
  {
    var front := batches[..|batches| - 1];
    var n := LastAdvance(front);
    UnchangedSince(anchor, t, front);
    assert front[..n] == batches[..n];
    if n == 0 {
      assert front[..0] == [];
    } else {
      SeedIsKnown(anchor, t, front);
    }
  }

  /** Right after an advance the watermark is that of one walk from the first seed over everything recorded. */
  lemma {:induction false} AdvancedTo(anchor: Option<int>, t: SlotTable, batches: seq<Updates>, seed: int)
    requires batches != [] && AnyFinalized(batches[|batches| - 1]) && Proper(t, Flatten(batches))
    requires FirstSeed(anchor, t, batches) == Some(seed)
    ensures AnchorAfter(anchor, t, batches) == Some(Walk(MapAfter(t, batches), seed))
    decreases |batches|
  {
    var front := batches[..|batches| - 1];
    var n := LastAdvance(front);
    BeforeAdvance(anchor, t, batches);
    if n == 0 {
      AdvanceWalks(anchor, TableAfter(t, batches), seed);
    } else {
      var done := batches[..n];
      ProperUpTo(t, batches, n);
      assert done[|done| - 1] == batches[n - 1];
      AdvancedTo(anchor, t, done, seed);
      AdvanceResumes(TableAfter(t, done), TableAfter(t, batches), seed);
    }
  }

  // ---------------------------------------------------------------- reports that do not advance

  lemma ChildrenHung(t: SlotTable, us: Updates, w: int)
    requires ParentsAgree(t, us) && !AnyFinalized(us) && Children(FinalizedParents(t), w) == {}
    ensures Children(FinalizedParents(UpsertAll(t, us)), w) != {} <==> HungUnder(UpsertAll(t, us), us, w)
  {
    var after := UpsertAll(t, us);
    var m, m' := FinalizedParents(t), FinalizedParents(after);
    if Children(m', w) != {} {
      var s := Pick(Children(m', w));
      RowAfter(t, us, s);
      assert s in m && s !in Children(m, w);
      assert exists u :: u in us && u.slot == s && u.parentSlot == Some(w);
    }
    if HungUnder(after, us, w) {
      var u :| u in us && u.slot in m' && u.parentSlot == Some(w);
      RowAfter(t, us, u.slot);
      assert u.slot in Children(m', w);
    }
  }

  lemma StuckIff(m: Parents, w: int)
    requires Ordered(m)
    ensures Walk(m, w) == w <==> Children(m, w) == {}
  {
    var kids := Children(m, w);
    if kids != {} {
      assert MinOf(kids) in kids;
      WalkNeverDrops(m, MinOf(kids));
    }
  }

  /** Reports that do not advance leave the watermark right exactly if none hangs a finalized slot under it. */
  lemma StillRightIff(t: SlotTable, us: Updates, a: int)
    requires Proper(t, us) && !AnyFinalized(us)
    ensures var w := Walk(FinalizedParents(t), a);
            w == Walk(FinalizedParents(UpsertAll(t, us)), a) <==> !HungUnder(UpsertAll(t, us), us, w)
  {
    var m, m' := FinalizedParents(t), FinalizedParents(UpsertAll(t, us));
    AgreeingTablesExtend(t, us);
    SubmapOrdered(m, m');
    WalkNeverDrops(m, a);
    WalkResumes(m, m', a);
    ChildrenHung(t, us, Walk(m, a));
    StuckIff(m', Walk(m, a));
  }

  // ---------------------------------------------------------------- main results

  /**
   For any split into batches: once some report was finalized, the stored watermark is that of one walk over everything
   from the first seed, exactly if no report since the last advance hangs a finalized slot under it.
   */
  lemma Confluence(anchor: Option<int>, t: SlotTable, batches: seq<Updates>)
    requires Proper(t, Flatten(batches)) && AnyFinalized(Flatten(batches))
    ensures AnchorAfter(anchor, t, batches).Some? && FirstSeed(anchor, t, batches).Some?
    ensures AnchorAfter(anchor, t, batches).value == Walk(MapAfter(t, batches), FirstSeed(anchor, t, batches).value)
       <==> !HungUnder(TableAfter(t, batches), SinceAdvance(batches), AnchorAfter(anchor, t, batches).value)
  {
    var n := LastAdvance(batches);
    AdvancesIff(batches);
    UnchangedSince(anchor, t, batches);
    SeedIsKnown(anchor, t, batches);
    ProperUpTo(t, batches, n);
    var seed := FirstSeed(anchor, t, batches).value;
    AdvancedTo(anchor, t, batches[..n], seed);
    StillRightIff(TableAfter(t, batches[..n]), SinceAdvance(batches), seed);
  }

  /** A watermark that is right stays right over any batches under the same exact condition. */
  lemma StaysRightIff(anchor: int, t: SlotTable, batches: seq<Updates>, a: int)
    requires Proper(t, Flatten(batches)) && anchor == Walk(FinalizedParents(t), a)
    ensures AnchorAfter(Some(anchor), t, batches).Some?
    ensures AnchorAfter(Some(anchor), t, batches).value == Walk(MapAfter(t, batches), a)
       <==> !HungUnder(TableAfter(t, batches), SinceAdvance(batches), AnchorAfter(Some(anchor), t, batches).value)
  {
    AdvancesIff(batches);
    if AnyFinalized(Flatten(batches)) {
      Confluence(Some(anchor), t, batches);
      StoredSeedStays(anchor, t, batches);
      AgreeingTablesExtend(t, Flatten(batches));
      WalkResumes(FinalizedParents(t), MapAfter(t, batches), a);
    } else {
      UnchangedSince(Some(anchor), t, batches);
      assert batches[..0] == [] && batches[0..] == batches;
      StillRightIff(t, Flatten(batches), a);
    }
  }

  lemma StoredSeedStays(anchor: int, t: SlotTable, batches: seq<Updates>)
    ensures FirstSeed(Some(anchor), t, batches) == Some(anchor)
  {
  }

  /** No slot is reported both finalized and not. */
  ghost predicate KindsDisjoint(t: SlotTable, us: Updates) {
    && (forall u, v | u in us && v in us && u.slot == v.slot :: u.finalized == v.finalized)
    && (forall u | u in us && u.slot in t :: u.finalized == t[u.slot].finalized)
  }

  lemma {:induction false} KindsAfter(t: SlotTable, us: Updates)
    requires KindsDisjoint(t, us)
    ensures forall u | u in us :: u.slot in UpsertAll(t, us) && UpsertAll(t, us)[u.slot].finalized == u.finalized
    ensures forall s | s in t :: s in UpsertAll(t, us) && UpsertAll(t, us)[s].finalized == t[s].finalized
    ensures forall s | s in UpsertAll(t, us) :: s in t || exists u :: u in us && u.slot == s
  {
    if us != [] {
      var front, last := us[..|us| - 1], us[|us| - 1];
      assert us == front + [last];
      KindsAfter(t, front);
    }
  }

  lemma SinceIsPart(batches: seq<Updates>)
    ensures forall u | u in SinceAdvance(batches) :: u in Flatten(batches)
  {
    var n := LastAdvance(batches);
    assert batches == batches[..n] + batches[n..];
    FlattenAppend(batches[..n], batches[n..]);
  }

  /** If finalized and dead slots are kept apart, nothing is ever hung late. */
  lemma DisjointKindsHangNothing(t: SlotTable, batches: seq<Updates>, w: int)
    requires KindsDisjoint(t, Flatten(batches))
    ensures !HungUnder(TableAfter(t, batches), SinceAdvance(batches), w)
  {
    UnchangedSince(None, t, batches);
    SinceIsPart(batches);
    KindsAfter(t, Flatten(batches));
  }

  /** From a stored watermark, how the reports were batched, ordered or repeated does not matter. */
  lemma ScheduleIndependent(anchor: int, t: SlotTable, a: seq<Updates>, b: seq<Updates>)
    requires forall u :: u in Flatten(a) <==> u in Flatten(b)
    requires Proper(t, Flatten(a)) && KindsDisjoint(t, Flatten(a))
    ensures AnchorAfter(Some(anchor), t, a) == AnchorAfter(Some(anchor), t, b)
         == Some(if AnyFinalized(Flatten(a)) then Walk(MapAfter(t, a), anchor) else anchor)
  {
    SetOfUpdatesDecides(t, Flatten(a), Flatten(b));
    assert AnyFinalized(Flatten(a)) == AnyFinalized(Flatten(b));
    OneWalk(anchor, t, a);
    OneWalk(anchor, t, b);
  }

  lemma OneWalk(anchor: int, t: SlotTable, batches: seq<Updates>)
    requires Proper(t, Flatten(batches)) && KindsDisjoint(t, Flatten(batches))
    ensures AnchorAfter(Some(anchor), t, batches)
         == Some(if AnyFinalized(Flatten(batches)) then Walk(MapAfter(t, batches), anchor) else anchor)
  {
    AdvancesIff(batches);
    if AnyFinalized(Flatten(batches)) {
      Confluence(Some(anchor), t, batches);
      StoredSeedStays(anchor, t, batches);
      DisjointKindsHangNothing(t, batches, AnchorAfter(Some(anchor), t, batches).value);
    } else {
      UnchangedSince(Some(anchor), t, batches);
      assert batches[..0] == [];
    }
  }

  /** A batch with nothing but a dead report can hang a finalized slot under the watermark, which then lags behind. */
  lemma DeadOnlyBatchLags()
    ensures var t: SlotTable := map[3 := SlotRow(None, true, false), 5 := SlotRow(None, true, false)];
            var batches := [[SlotStateUpdate(5, Some(3), false, true)]];
            && Proper(t, Flatten(batches)) && 3 == Walk(FinalizedParents(t), 3)
            && AnchorAfter(Some(3), t, batches) == Some(3) && Walk(MapAfter(t, batches), 3) == 5
  {
    var t: SlotTable := map[3 := SlotRow(None, true, false), 5 := SlotRow(None, true, false)];
    var u := SlotStateUpdate(5, Some(3), false, true);
    var batches := [[u]];
    FlattenOne([u]);
    assert [u][..0] == [] && batches[..0] == [];
    assert UpsertAll(t, [u]) == t[5 := SlotRow(Some(3), true, true)];
    var m := MapAfter(t, batches);
    assert m == map[3 := None, 5 := Some(3)];
    assert Children(FinalizedParents(t), 3) == {};
    assert Children(m, 3) == {5} && Children(m, 5) == {};
    assert GreedyStep(m, 3, 5);
    assert GreedyPath(m, [3, 5]);
    GreedyPathEndsAtWalk(m, [3, 5]);
  }

  // ---------------------------------------------------------------- the statement returns

  /** The recursive query comes to an end at every advance. */
  ghost predicate AllQueriesEnd(anchor: Option<int>, t: SlotTable, batches: seq<Updates>) {
    batches != [] ==>
      var front := batches[..|batches| - 1];
      && AllQueriesEnd(anchor, t, front)
      && (AnyFinalized(batches[|batches| - 1]) ==> QueryEnds(AnchorAfter(anchor, t, front), TableAfter(t, batches)))
  }

  /** With agreeing parents below their slots no query runs into a cycle, forks or not. */
  lemma {:induction false} QueriesEnd(anchor: Option<int>, t: SlotTable, batches: seq<Updates>)
    requires ParentsAgree(t, Flatten(batches)) && Ordered(MapAfter(t, batches))
    ensures AllQueriesEnd(anchor, t, batches)
  {
    if batches != [] {
      var front, last := batches[..|batches| - 1], batches[|batches| - 1];
      FlattenFront(batches);
      UpsertAllAppend(t, Flatten(front), last);
      AgreementSplits(t, Flatten(front), last);
      AgreeingTablesExtend(TableAfter(t, front), last);
      QueriesEnd(anchor, t, front);
      var seed := Seed(AnchorAfter(anchor, t, front), TableAfter(t, batches));
      if seed.Some? { OrderedHasNoCycle(MapAfter(t, batches), seed.value); }
    }
  }

  lemma LastQueryEnds(anchor: Option<int>, t: SlotTable, batches: seq<Updates>)
    requires batches != [] && ParentsAgree(t, Flatten(batches)) && Ordered(MapAfter(t, batches))
    ensures var front, last := batches[..|batches| - 1], batches[|batches| - 1];
            AnyFinalized(last) ==> QueryEnds(AnchorAfter(anchor, t, front), UpsertAll(TableAfter(t, front), last))
  {
    QueriesEnd(anchor, t, batches);
    FlattenFront(batches);
    UpsertAllAppend(t, Flatten(batches[..|batches| - 1]), batches[|batches| - 1]);
  }

  // ---------------------------------------------------------------- the in-memory reference store

  /** Only finalized updates are kept. */
  function ReferenceRecord(m: Parents, us: Updates): Parents {
    if us == [] then m
    else
      var before, u := ReferenceRecord(m, us[..|us| - 1]), us[|us| - 1];
      if !u.finalized then before
      else before[u.slot := if u.slot in before && u.parentSlot.None? then before[u.slot] else u.parentSlot]
  }

  ghost function ReferenceAdvance(anchor: Option<int>, m: Parents): Option<int> {
    var w := AdvanceFrom(anchor, m);
    if w.None? then anchor else if anchor.None? then w else Some(Max(anchor.value, w.value))
  }

  ghost function ReferenceAfter(anchor: Option<int>, m: Parents, batches: seq<Updates>): Option<int> {
    if batches == [] then anchor
    else
      var before := ReferenceAfter(anchor, m, batches[..|batches| - 1]);
      if AnyFinalized(batches[|batches| - 1]) then ReferenceAdvance(before, ReferenceRecord(m, Flatten(batches)))
      else before
  }

  lemma {:induction false} ReferenceRecordsFinalizedPart(t: SlotTable, us: Updates)
    requires KindsDisjoint(t, us)
    ensures FinalizedParents(UpsertAll(t, us)) == ReferenceRecord(FinalizedParents(t), us)
  {
    if us != [] {
      var front, last := us[..|us| - 1], us[|us| - 1];
      assert us == front + [last];
      ReferenceRecordsFinalizedPart(t, front);
      KindsAfter(t, front);
      UpsertFinalizedPart(UpsertAll(t, front), last);
    }
  }

  lemma UpsertFinalizedPart(t: SlotTable, u: SlotStateUpdate)
    requires u.slot in t ==> t[u.slot].finalized == u.finalized
    ensures FinalizedParents(Upsert(t, u)) == ReferenceRecord(FinalizedParents(t), [u])
  {
    assert [u][..0] == [];
  }

  lemma OneAdvanceAgrees(anchor: Option<int>, t: SlotTable)
    requires Ordered(FinalizedParents(t)) && NoForks(FinalizedParents(t))
    ensures AdvancedAnchor(anchor, t) == ReferenceAdvance(anchor, FinalizedParents(t))
  {
    var seed := Seed(anchor, t);
    if seed.Some? { WalkIsClosureMax(FinalizedParents(t), seed.value); }
  }

  /** The Postgres statements and the in-memory store keep the same watermark. */
  lemma {:induction false} ReferenceStoreAgrees(anchor: Option<int>, t: SlotTable, batches: seq<Updates>)
    requires Proper(t, Flatten(batches)) && KindsDisjoint(t, Flatten(batches))
    ensures AnchorAfter(anchor, t, batches) == ReferenceAfter(anchor, FinalizedParents(t), batches)
  {
    if batches != [] {
      var front, last := batches[..|batches| - 1], batches[|batches| - 1];
      FlattenFront(batches);
      ProperPrefix(t, Flatten(front), last);
      ReferenceStoreAgrees(anchor, t, front);
      ReferenceRecordsFinalizedPart(t, Flatten(batches));
      OneAdvanceAgrees(AnchorAfter(anchor, t, front), TableAfter(t, batches));
    }
  }

  // ---------------------------------------------------------------- exactly when both stores hold the same map

  ghost predicate IsFinalized(t: SlotTable, us: Updates, s: int) {
    (s in t && t[s].finalized) || exists u :: u in us && u.slot == s && u.finalized
  }

  ghost predicate ParentNamed(t: SlotTable, us: Updates, s: int) {
    (s in t && t[s].parentSlot.Some?) || exists u :: u in us && u.slot == s && u.parentSlot.Some?
  }

  ghost predicate ParentNamedAsFinalized(t: SlotTable, us: Updates, s: int) {
    || (s in t && t[s].finalized && t[s].parentSlot.Some?)
    || exists u :: u in us && u.slot == s && u.finalized && u.parentSlot.Some?
  }

  /** What the in-memory store holds for one slot after agreeing updates. */
  lemma {:induction false} ReferenceAt(t: SlotTable, us: Updates, s: int)
    requires ParentsAgree(t, us)
    ensures s in ReferenceRecord(FinalizedParents(t), us) <==> IsFinalized(t, us, s)
    ensures s in ReferenceRecord(FinalizedParents(t), us) ==>
              var parent := ReferenceRecord(FinalizedParents(t), us)[s];
              && (parent.Some? <==> ParentNamedAsFinalized(t, us, s))
              && (parent.Some? && s in t && t[s].finalized && t[s].parentSlot.Some? ==> parent == t[s].parentSlot)
              && (forall u | parent.Some? && u in us && u.slot == s && u.finalized && u.parentSlot.Some? ::
                    parent == u.parentSlot)
  {
    if us != [] {
      var front, last := us[..|us| - 1], us[|us| - 1];
      assert us == front + [last];
      ReferenceAt(t, front, s);
    }
  }

  /** Both agree exactly if every finalized slot with a known parent has it from a finalized row or report. */
  lemma ReferenceHoldsFinalizedPartIff(t: SlotTable, us: Updates)
    requires ParentsAgree(t, us)
    ensures FinalizedParents(UpsertAll(t, us)) == ReferenceRecord(FinalizedParents(t), us)
       <==> forall s | IsFinalized(t, us, s) && ParentNamed(t, us, s) :: ParentNamedAsFinalized(t, us, s)
  {
    var f, r := FinalizedParents(UpsertAll(t, us)), ReferenceRecord(FinalizedParents(t), us);
    forall s: int ensures s in f <==> s in r {
      RowAfter(t, us, s);
      ReferenceAt(t, us, s);
    }
    forall s | s in f ensures f[s] == r[s] <==> (ParentNamed(t, us, s) ==> ParentNamedAsFinalized(t, us, s)) {
      RowAfter(t, us, s);
      ReferenceAt(t, us, s);
    }
    assert forall s: int :: IsFinalized(t, us, s) <==> s in f by {
      forall s: int ensures IsFinalized(t, us, s) <==> s in f { FlagsAfter(t, us, s); }
    }
    assert f.Keys == r.Keys;
    if forall s | IsFinalized(t, us, s) && ParentNamed(t, us, s) :: ParentNamedAsFinalized(t, us, s) {
      forall s | s in f ensures f[s] == r[s] {
        assert IsFinalized(t, us, s);
      }
      assert f == r;
    }
  }

  /** For instance, a dead report may name the parent of a slot that is finalized as well. */
  lemma DeadReportSeparatesStores()
    ensures var us := [SlotStateUpdate(5, None, true, false), SlotStateUpdate(5, Some(3), false, true)];
            FinalizedParents(UpsertAll(map[], us)) == map[5 := Some(3)] && ReferenceRecord(map[], us) == map[5 := None]
  {
    var first, second := SlotStateUpdate(5, None, true, false), SlotStateUpdate(5, Some(3), false, true);
    var us := [first, second];
    assert us[..1] == [first] && us[..1][..0] == [];
    assert UpsertAll(map[], [first]) == map[5 := SlotRow(None, true, false)];
    assert UpsertAll(map[], us) == map[5 := SlotRow(Some(3), true, true)];
    assert FinalizedParents(UpsertAll(map[], us)) == map[5 := Some(3)];
    assert ReferenceRecord(map[], [first]) == map[5 := None];
    assert ReferenceRecord(map[], us) == map[5 := None];
  }
}
