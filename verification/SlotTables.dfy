/**
 The `stream_slots` table of one stream and the cursor row beside it: merged and single upserts, in any order of
 delivery, and the watermark statement.
 */
module SlotTables {
  import opened Base
  import opened SlotChain

  datatype SlotStateUpdate = SlotStateUpdate(slot: u64, parentSlot: Option<u64>, finalized: bool, dead: bool)

  datatype SlotRow = SlotRow(parentSlot: Option<int>, finalized: bool, dead: bool)

  type SlotTable = map<int, SlotRow>

  datatype CursorRow = CursorRow(persisted: int, contiguous: Option<int>, finalizedHead: Option<int>)

  // ---------------------------------------------------------------- one update at a time

  /** `ON CONFLICT DO UPDATE`: flags are or-ed, an unnamed parent keeps the stored one. */
  function UpsertRow(row: Option<SlotRow>, u: SlotStateUpdate): SlotRow {
    match row
    case None => SlotRow(u.parentSlot, u.finalized, u.dead)
    case Some(r) => SlotRow(Coalesce(u.parentSlot, r.parentSlot), r.finalized || u.finalized, r.dead || u.dead)
  }

  function RowAt(t: SlotTable, s: int): Option<SlotRow> {
    if s in t then Some(t[s]) else None
  }

  function Upsert(t: SlotTable, u: SlotStateUpdate): SlotTable {
    t[u.slot := UpsertRow(RowAt(t, u.slot), u)]
  }

  function UpsertAll(t: SlotTable, us: seq<SlotStateUpdate>): SlotTable {
    if us == [] then t else Upsert(UpsertAll(t, us[..|us| - 1]), us[|us| - 1])
  }

  lemma UpsertOne(t: SlotTable, u: SlotStateUpdate)
    ensures UpsertAll(t, [u]) == Upsert(t, u)
  {
    assert UpsertAll(t, []) == t;
    assert [u][..0] == [];
  }

  // ---------------------------------------------------------------- merged per batch

  /** Flags accumulate; a later parent replaces an earlier one only if it is named. */
  function Combine(existing: SlotStateUpdate, u: SlotStateUpdate): SlotStateUpdate {
    existing.(finalized := existing.finalized || u.finalized, dead := existing.dead || u.dead,
              parentSlot := if u.parentSlot.Some? then u.parentSlot else existing.parentSlot)
  }

  function MergeInto(merged: map<u64, SlotStateUpdate>, u: SlotStateUpdate): map<u64, SlotStateUpdate> {
    merged[u.slot := if u.slot in merged then Combine(merged[u.slot], u) else u]
  }

  function Merge(us: seq<SlotStateUpdate>): map<u64, SlotStateUpdate> {
    if us == [] then map[] else MergeInto(Merge(us[..|us| - 1]), us[|us| - 1])
  }

  /** One statement over rows with distinct slots; each row of the table is touched at most once. */
  function UpsertRows(t: SlotTable, rows: map<u64, SlotStateUpdate>): SlotTable {
    map s | s in t.Keys + rows.Keys :: if s in rows.Keys then UpsertRow(RowAt(t, s), rows[s]) else t[s]
  }

  predicate FitsBigint(slot: int) { slot <= MAX_I64 }

  predicate ParentFits(parent: Option<int>) { parent.Some? ==> FitsBigint(parent.value) }

  predicate RowStorable(u: SlotStateUpdate) {
    FitsBigint(u.slot) && ParentFits(u.parentSlot)
  }

  predicate Storable(rows: map<u64, SlotStateUpdate>) {
    forall s | s in rows :: RowStorable(rows[s])
  }

  lemma {:induction false} MergeKeepsSlot(us: seq<SlotStateUpdate>, s: u64)
    ensures s in Merge(us) <==> exists u :: u in us && u.slot == s
    ensures s in Merge(us) ==> Merge(us)[s].slot == s
  {
    if us != [] {
      var front, last := us[..|us| - 1], us[|us| - 1];
      assert us == front + [last];
      MergeKeepsSlot(front, s);
    }
  }

  lemma MergeIntoThenUpsert(t: SlotTable, merged: map<u64, SlotStateUpdate>, u: SlotStateUpdate)
    ensures UpsertRows(t, MergeInto(merged, u)) == Upsert(UpsertRows(t, merged), u)
  {
    var both, after := MergeInto(merged, u), Upsert(UpsertRows(t, merged), u);
    assert UpsertRows(t, both).Keys == after.Keys;
    forall s | s in after ensures UpsertRows(t, both)[s] == after[s] {
      assert s in t.Keys + both.Keys;
      if s != u.slot { assert s in UpsertRows(t, merged); }
    }
  }

  /** Merging a batch first and writing it in one statement equals writing its updates one by one. */
  lemma {:induction false} MergedUpsertIsFold(t: SlotTable, us: seq<SlotStateUpdate>)
    ensures UpsertRows(t, Merge(us)) == UpsertAll(t, us)
  {
    if us == [] {
      assert UpsertRows(t, map[]) == t;
    } else {
      MergedUpsertIsFold(t, us[..|us| - 1]);
      MergeIntoThenUpsert(t, Merge(us[..|us| - 1]), us[|us| - 1]);
    }
  }

  lemma {:induction false} UpsertAllAppend(t: SlotTable, a: seq<SlotStateUpdate>, b: seq<SlotStateUpdate>)
    ensures UpsertAll(t, a + b) == UpsertAll(UpsertAll(t, a), b)
    decreases |b|
  {
    if b == [] {
      assert a + b == a;
    } else {
      var front := b[..|b| - 1];
      assert (a + b)[..|a + b| - 1] == a + front;
      UpsertAllAppend(t, a, front);
    }
  }

  /** Recording two batches as one, or one after the other, is the same. */
  lemma RecordingIsHomomorphic(t: SlotTable, a: seq<SlotStateUpdate>, b: seq<SlotStateUpdate>)
    ensures UpsertRows(t, Merge(a + b)) == UpsertRows(UpsertRows(t, Merge(a)), Merge(b))
  {
    MergedUpsertIsFold(t, a + b);
    UpsertAllAppend(t, a, b);
    MergedUpsertIsFold(t, a);
    MergedUpsertIsFold(UpsertAll(t, a), b);
  }

  /** The last parent a batch names for a slot. */
  function LastParent(us: seq<SlotStateUpdate>, s: int): Option<u64> {
    if us == [] then None
    else
      var last := us[|us| - 1];
      if last.slot == s && last.parentSlot.Some? then last.parentSlot else LastParent(us[..|us| - 1], s)
  }

  lemma {:induction false} MergeParent(us: seq<SlotStateUpdate>, s: u64)
    ensures if s in Merge(us) then Merge(us)[s].parentSlot == LastParent(us, s) else LastParent(us, s).None?
  {
    if us != [] {
      MergeParent(us[..|us| - 1], s);
    }
  }

  /** A batch is refused exactly when a slot, or the last parent named for a slot, exceeds BIGINT. */
  lemma BatchStorableIff(us: seq<SlotStateUpdate>)
    ensures Storable(Merge(us)) <==>
              forall u | u in us :: u.slot <= MAX_I64 && AtMost(LastParent(us, u.slot), Some(MAX_I64))
  {
    var merged := Merge(us);
    forall s | s in merged
      ensures RowStorable(merged[s]) <==> FitsBigint(s) && ParentFits(LastParent(us, s))
      ensures exists u :: u in us && u.slot == s
    {
      MergeKeepsSlot(us, s);
      MergeParent(us, s);
    }
    forall u | u in us ensures u.slot in merged {
      MergeKeepsSlot(us, u.slot);
    }
  }

  // ---------------------------------------------------------------- the finalized part of the table

  function FinalizedParents(t: SlotTable): Parents {
    map s | s in t && t[s].finalized :: t[s].parentSlot
  }

  /** No two reports, old or new, name different parents for one slot. */
  ghost predicate ParentsAgree(t: SlotTable, us: seq<SlotStateUpdate>) {
    && (forall u, v | u in us && v in us && u.slot == v.slot && u.parentSlot.Some? && v.parentSlot.Some? ::
          u.parentSlot == v.parentSlot)
    && (forall u | u in us && u.slot in t && u.parentSlot.Some? && t[u.slot].parentSlot.Some? ::
          u.parentSlot == t[u.slot].parentSlot)
  }

  ghost predicate Reported(us: seq<SlotStateUpdate>, s: int) {
    exists u :: u in us && u.slot == s
  }

  lemma {:induction false} FlagsAfter(t: SlotTable, us: seq<SlotStateUpdate>, s: int)
    ensures s in UpsertAll(t, us) <==> s in t || Reported(us, s)
    ensures s in UpsertAll(t, us) ==>
              var row := UpsertAll(t, us)[s];
              && (row.finalized <==> (s in t && t[s].finalized) || exists u :: u in us && u.slot == s && u.finalized)
              && (row.dead <==> (s in t && t[s].dead) || exists u :: u in us && u.slot == s && u.dead)
  {
    if us != [] {
      var front, last := us[..|us| - 1], us[|us| - 1];
      assert us == front + [last];
      FlagsAfter(t, front, s);
    }
  }

  lemma {:induction false} ParentAfter(t: SlotTable, us: seq<SlotStateUpdate>, s: int)
    requires ParentsAgree(t, us) && s in UpsertAll(t, us)
    ensures var parent := UpsertAll(t, us)[s].parentSlot;
            && (parent.Some? <==>
                  (s in t && t[s].parentSlot.Some?) || exists u :: u in us && u.slot == s && u.parentSlot.Some?)
            && (s in t && t[s].parentSlot.Some? ==> parent == t[s].parentSlot)
            && (forall u | u in us && u.slot == s && u.parentSlot.Some? :: parent == u.parentSlot)
  {
    if us != [] {
      var front, last := us[..|us| - 1], us[|us| - 1];
      assert us == front + [last];
      FlagsAfter(t, front, s);
      if s in UpsertAll(t, front) { ParentAfter(t, front, s); }
    }
  }

  /** What a row says after a run of agreeing updates, without regard to their order. */
  lemma {:induction false} RowAfter(t: SlotTable, us: seq<SlotStateUpdate>, s: int)
    requires ParentsAgree(t, us)
    ensures s in UpsertAll(t, us) <==> s in t || Reported(us, s)
    ensures s in UpsertAll(t, us) ==>
              var row := UpsertAll(t, us)[s];
              && (row.finalized <==> (s in t && t[s].finalized) || exists u :: u in us && u.slot == s && u.finalized)
              && (row.dead <==> (s in t && t[s].dead) || exists u :: u in us && u.slot == s && u.dead)
              && (row.parentSlot.Some? <==>
                    (s in t && t[s].parentSlot.Some?) || exists u :: u in us && u.slot == s && u.parentSlot.Some?)
              && (s in t && t[s].parentSlot.Some? ==> row.parentSlot == t[s].parentSlot)
              && (forall u | u in us && u.slot == s && u.parentSlot.Some? :: row.parentSlot == u.parentSlot)
  {
    FlagsAfter(t, us, s);
    if s in UpsertAll(t, us) { ParentAfter(t, us, s); }
  }

  /** Agreeing reports lead to the same table in every order and with any repetitions. */
  lemma SetOfUpdatesDecides(t: SlotTable, us: seq<SlotStateUpdate>, vs: seq<SlotStateUpdate>)
    requires ParentsAgree(t, us) && forall u :: u in us <==> u in vs
    ensures UpsertAll(t, us) == UpsertAll(t, vs)
  {
    forall s ensures s in UpsertAll(t, us) <==> s in UpsertAll(t, vs)
             ensures s in UpsertAll(t, us) ==> UpsertAll(t, us)[s] == UpsertAll(t, vs)[s]
    {
      RowAfter(t, us, s);
      RowAfter(t, vs, s);
    }
  }

  lemma {:induction false} AgreeingTablesExtend(t: SlotTable, us: seq<SlotStateUpdate>)
    requires ParentsAgree(t, us)
    ensures Extends(FinalizedParents(t), FinalizedParents(UpsertAll(t, us)))
  {
    forall s | s in FinalizedParents(t)
      ensures s in FinalizedParents(UpsertAll(t, us))
      ensures t[s].parentSlot.Some? ==> FinalizedParents(UpsertAll(t, us))[s] == t[s].parentSlot
    {
      RowAfter(t, us, s);
    }
  }

  lemma {:induction false} LastParentStands(t: SlotTable, us: seq<SlotStateUpdate>, s: int)
    ensures s in UpsertAll(t, us) ==>
              UpsertAll(t, us)[s].parentSlot
                == if LastParent(us, s).Some? then LastParent(us, s) else if s in t then t[s].parentSlot else None
    ensures LastParent(us, s).Some? || s in t ==> s in UpsertAll(t, us)
  {
    if us != [] { LastParentStands(t, us[..|us| - 1], s); }
  }

  /** A batch has a last parent for a slot exactly if one of its updates names a parent for it. */
  lemma {:induction false} LastParentNamed(us: seq<SlotStateUpdate>, s: int)
    ensures LastParent(us, s).Some? <==> exists u :: u in us && u.slot == s && u.parentSlot.Some?
  {
    if us != [] {
      var front, last := us[..|us| - 1], us[|us| - 1];
      assert us == front + [last];
      LastParentNamed(front, s);
    }
  }

  /** Any part of the reports, recorded before all of them, leaves no trace, whether or not the parents agree. */
  lemma PartIsAbsorbed(t: SlotTable, part: seq<SlotStateUpdate>, us: seq<SlotStateUpdate>)
    requires forall u | u in part :: u in us
    ensures UpsertAll(UpsertAll(t, part), us) == UpsertAll(t, us)
  {
    var once, twice := UpsertAll(t, us), UpsertAll(UpsertAll(t, part), us);
    forall s: int
      ensures s in twice <==> s in once
      ensures s in once ==> twice[s] == once[s]
    {
      FlagsAfter(t, us, s);
      FlagsAfter(t, part, s);
      FlagsAfter(UpsertAll(t, part), us, s);
      LastParentStands(t, us, s);
      LastParentStands(t, part, s);
      LastParentStands(UpsertAll(t, part), us, s);
      LastParentNamed(part, s);
      LastParentNamed(us, s);
    }
    assert twice.Keys == once.Keys;
  }

  // ---------------------------------------------------------------- the watermark statement

  ghost function LowestFinalized(t: SlotTable): Option<int> {
    var keys := FinalizedParents(t).Keys;
    if keys == {} then None else Some(MinOf(keys))
  }

  ghost function HighestFinalized(t: SlotTable): Option<int> {
    var keys := FinalizedParents(t).Keys;
    if keys == {} then None else Some(MaxOf(keys))
  }

  function Stored(c: Option<CursorRow>): Option<int> {
    if c.Some? then c.value.contiguous else None
  }

  /** The stored watermark or, before there is one, the lowest finalized slot. */
  ghost function Seed(anchor: Option<int>, t: SlotTable): Option<int> {
    Coalesce(anchor, LowestFinalized(t))
  }

  ghost predicate QueryEnds(anchor: Option<int>, t: SlotTable) {
    var seed := Seed(anchor, t);
    seed.Some? ==> !OnCycle(FinalizedParents(t), seed.value)
  }

  ghost function Watermark(anchor: Option<int>, t: SlotTable): Option<int> {
    var seed := Seed(anchor, t);
    if seed.None? then None else Some(ChainMax(FinalizedParents(t), seed.value))
  }

  /** The cursor row after the monotone upsert of watermark and head. */
  ghost function Advanced(c: Option<CursorRow>, t: SlotTable): CursorRow {
    match c
    case None => CursorRow(0, Watermark(None, t), HighestFinalized(t))
    case Some(row) =>
      row.(contiguous := Greatest(row.contiguous, Watermark(row.contiguous, t)),
           finalizedHead := Greatest(row.finalizedHead, HighestFinalized(t)))
  }

  lemma AgreementSplits(t: SlotTable, a: seq<SlotStateUpdate>, b: seq<SlotStateUpdate>)
    requires ParentsAgree(t, a + b)
    ensures ParentsAgree(t, a) && ParentsAgree(UpsertAll(t, a), b)
  {
    assert forall u | u in a || u in b :: u in a + b;
    forall u | u in b && u.slot in UpsertAll(t, a) && u.parentSlot.Some? && UpsertAll(t, a)[u.slot].parentSlot.Some?
      ensures u.parentSlot == UpsertAll(t, a)[u.slot].parentSlot
    {
      RowAfter(t, a, u.slot);
    }
  }

  /** Does a batch hold a finalized report? Only then is the watermark asked for. */
  ghost predicate AnyFinalized(us: seq<SlotStateUpdate>) {
    exists u :: u in us && u.finalized
  }

  lemma SubmapOrdered(m: Parents, later: Parents)
    requires Extends(m, later) && Ordered(later) && NoForks(later)
    ensures Ordered(m) && NoForks(m)
  {
  }
}
