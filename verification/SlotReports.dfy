/**
 From events to the watermark: which slot rows a run leaves, read off the events themselves, and where the watermark of
 a chain of finalized slots ends up.
 */
module SlotReports {
  import opened Base
  import opened EventIdentities
  import opened SlotChain
  import opened SlotTables
  import opened Watermarks
  import opened Storage
  import opened Pipeline
  import opened LiveRuns

  type Events = seq<NormalizedEvent>

  // ---------------------------------------------------------------- the rows

  ghost predicate ReportsOn(e: NormalizedEvent, s: int) {
    Finalizes(e, s) || Kills(e, s)
  }

  ghost predicate NamesParent(e: NormalizedEvent, s: int) {
    ReportsOn(e, s) && e.payload.parent.Some?
  }

  /** Event `i` is the last one that names a parent for `s`. */
  ghost predicate NamesLast(events: Events, s: int, i: nat) {
    i < |events| && NamesParent(events[i], s) && forall j | i < j < |events| :: !NamesParent(events[j], s)
  }

  /** The last parent named for `s` is `p`, or none is named and the table has it. */
  ghost predicate HasParent(t: SlotTable, events: Events, s: int, p: int) {
    || (exists i: nat :: NamesLast(events, s, i) && events[i].payload.parent == Some(p))
    || ((forall e | e in events :: !NamesParent(e, s)) && s in t && t[s].parentSlot == Some(p))
  }

  /** The table after one more event. */
  lemma OneMoreEvent(t: SlotTable, events: Events)
    requires events != []
    ensures var before, u := UpsertAll(t, SlotStates(events[..|events| - 1])), SlotStateFromEvent(events[|events| - 1]);
            UpsertAll(t, SlotStates(events)) == if u.Some? then Upsert(before, u.value) else before
  {
    var front, u := SlotStates(events[..|events| - 1]), SlotStateFromEvent(events[|events| - 1]);
    if u.Some? {
      assert (front + [u.value])[..|front|] == front;
    } else {
      assert SlotStates(events) == front;
    }
  }

  lemma UpdateOf(events: Events, e: NormalizedEvent, s: int) returns (u: SlotStateUpdate)
    requires e in events && ReportsOn(e, s)
    ensures u in SlotStates(events) && u.slot == s && Tells(e, u)
  {
    SlotStatesAreReports(events);
    u := SlotStateUpdate(e.identity.slot, e.payload.parent, Finalizes(e, s), Kills(e, s));
    assert Tells(e, u);
  }

  lemma EventOf(events: Events, u: SlotStateUpdate) returns (e: NormalizedEvent)
    requires u in SlotStates(events)
    ensures e in events && Tells(e, u)
  {
    SlotStatesAreReports(events);
    e :| e in events && Tells(e, u);
  }

  lemma EventsHaveUpdates(events: Events, us: Updates, s: int)
    requires us == SlotStates(events)
    ensures (exists e :: e in events && ReportsOn(e, s)) ==> Reported(us, s)
    ensures (exists e :: e in events && Finalizes(e, s)) ==> exists u :: u in us && u.slot == s && u.finalized
    ensures (exists e :: e in events && Kills(e, s)) ==> exists u :: u in us && u.slot == s && u.dead
  {
    if e :| e in events && Finalizes(e, s) { var u := UpdateOf(events, e, s); }
    if e :| e in events && Kills(e, s) { var u := UpdateOf(events, e, s); }
  }

  lemma UpdatesHaveEvents(events: Events, us: Updates, s: int)
    requires us == SlotStates(events)
    ensures Reported(us, s) ==> exists e :: e in events && ReportsOn(e, s)
    ensures (exists u :: u in us && u.slot == s && u.finalized) ==> exists e :: e in events && Finalizes(e, s)
    ensures (exists u :: u in us && u.slot == s && u.dead) ==> exists e :: e in events && Kills(e, s)
  {
    if u :| u in us && u.slot == s { var e := EventOf(events, u); }
    if u :| u in us && u.slot == s && u.finalized { var e := EventOf(events, u); }
    if u :| u in us && u.slot == s && u.dead { var e := EventOf(events, u); }
  }

  /** Which slots have a row, and its flags. */
  lemma FlagsFromEvents(t: SlotTable, events: Events, s: int)
    ensures s in UpsertAll(t, SlotStates(events)) <==> s in t || exists e :: e in events && ReportsOn(e, s)
    ensures s in UpsertAll(t, SlotStates(events)) ==>
              var row := UpsertAll(t, SlotStates(events))[s];
              && (row.finalized <==> (s in t && t[s].finalized) || exists e :: e in events && Finalizes(e, s))
              && (row.dead <==> (s in t && t[s].dead) || exists e :: e in events && Kills(e, s))
  {
    FlagsAfter(t, SlotStates(events), s);
    EventsHaveUpdates(events, SlotStates(events), s);
    UpdatesHaveEvents(events, SlotStates(events), s);
  }

  lemma ParentNext(t: SlotTable, events: Events, s: int, p: int)
    requires events != []
    ensures HasParent(t, events, s, p)
       <==> if NamesParent(events[|events| - 1], s) then events[|events| - 1].payload.parent == Some(p)
            else HasParent(t, events[..|events| - 1], s, p)
  {
    var front, last, n := events[..|events| - 1], events[|events| - 1], |events| - 1;
    assert events == front + [last];
    if NamesParent(last, s) {
      assert NamesLast(events, s, n);
      assert last in events;
    } else {
      forall i: nat ensures NamesLast(events, s, i) <==> NamesLast(front, s, i) {
        if NamesLast(front, s, i) { assert events[i] == front[i]; }
      }
      assert forall e :: e in events <==> e in front || e == last;
      if i: nat :| NamesLast(front, s, i) && front[i].payload.parent == Some(p) {
        assert NamesLast(events, s, i) && events[i] == front[i];
      }
    }
  }

  predicate ParentIs(t: SlotTable, s: int, p: int) {
    s in t && t[s].parentSlot == Some(p)
  }

  lemma ParentAfterOne(before: SlotTable, after: SlotTable, e: NormalizedEvent, s: int, p: int)
    requires var u := SlotStateFromEvent(e); after == if u.Some? then Upsert(before, u.value) else before
    ensures ParentIs(after, s, p)
       <==> if NamesParent(e, s) then e.payload.parent == Some(p) else ParentIs(before, s, p)
  {
  }

  lemma {:induction false} ParentFromEvents(t: SlotTable, events: Events, s: int, p: int)
    ensures ParentIs(UpsertAll(t, SlotStates(events)), s, p) <==> HasParent(t, events, s, p)
  {
    if events != [] {
      var front, last := events[..|events| - 1], events[|events| - 1];
      ParentFromEvents(t, front, s, p);
      OneMoreEvent(t, events);
      ParentAfterOne(UpsertAll(t, SlotStates(front)), UpsertAll(t, SlotStates(events)), last, s, p);
      ParentNext(t, events, s, p);
    }
  }

  /**
   What any run leaves in the slot table, read off the events written: a row for every slot that some event reports
   finalized or dead, marked with just those of the two that were reported, and the last parent named for it.
   */
  lemma RunRecordsReports(db: Db, batches: Batches, cfg: PipelineConfig, d: Db, s: int, p: int)
    requires cfg.recordsSlots && Exec(db, batches, cfg) == Some(d)
    ensures var events := Flatten(batches);
            && (s in d.slots <==> s in db.slots || exists e :: e in events && ReportsOn(e, s))
            && (s in d.slots ==>
                  var row := d.slots[s];
                  && (row.finalized <==>
                        (s in db.slots && db.slots[s].finalized) || exists e :: e in events && Finalizes(e, s))
                  && (row.dead <==> (s in db.slots && db.slots[s].dead) || exists e :: e in events && Kills(e, s))
                  && (row.parentSlot == Some(p) <==> HasParent(db.slots, events, s, p)))
  {
    ExecTables(db, batches, cfg, d);
    FlagsFromEvents(db.slots, Flatten(batches), s);
    ParentFromEvents(db.slots, Flatten(batches), s, p);
  }

  // ---------------------------------------------------------------- a chain of finalized slots

  /** Slot `chain[i]` is reported finalized, with the slot before it as its parent. */
  ghost predicate LinkReported(events: Events, chain: seq<int>, i: nat)
    requires i < |chain|
  {
    exists e :: e in events && Finalizes(e, chain[i]) && (i > 0 ==> e.payload.parent == Some(chain[i - 1]))
  }

  ghost predicate Rising(chain: seq<int>) {
    forall i, j | 0 <= i < j < |chain| :: chain[i] < chain[j]
  }

  ghost predicate EventsAgree(events: Events) {
    forall e, f | e in events && f in events && e.identity.slot == f.identity.slot
                  && NamesParent(e, e.identity.slot) && NamesParent(f, f.identity.slot) ::
      e.payload.parent == f.payload.parent
  }

  /**
   The slots reported finalized are those of the chain, in whatever order they arrive and however often; none of them
   is reported dead as well, and the first one hangs below the chain or nowhere.
   */
  ghost predicate ReportsChain(events: Events, chain: seq<int>) {
    && chain != [] && Rising(chain) && EventsAgree(events)
    && (forall i | 0 <= i < |chain| :: LinkReported(events, chain, i))
    && (forall e | e in events && Finalizes(e, e.identity.slot) :: e.identity.slot in chain)
    && (forall e | e in events && Kills(e, e.identity.slot) :: e.identity.slot !in chain)
    && (forall e | e in events && NamesParent(e, chain[0]) :: e.payload.parent.value < chain[0])
  }

  /** The finalized slots are those of the chain, each with the one before it as its parent. */
  ghost predicate ChainMap(m: Parents, chain: seq<int>) {
    && chain != [] && Rising(chain)
    && (forall s :: s in m <==> s in chain)
    && (forall i | 0 < i < |chain| :: m[chain[i]] == Some(chain[i - 1]))
    && (m[chain[0]].Some? ==> m[chain[0]].value < chain[0])
  }

  lemma ChainChildren(m: Parents, chain: seq<int>, i: nat)
    requires ChainMap(m, chain) && i < |chain|
    ensures Children(m, chain[i]) == if i + 1 < |chain| then {chain[i + 1]} else {}
  {
    forall c | c in Children(m, chain[i]) ensures i + 1 < |chain| && c == chain[i + 1] {
      var j :| 0 <= j < |chain| && chain[j] == c;
      if j > 0 {
        assert chain[j - 1] == chain[i];
        assert j - 1 == i;
      }
    }
  }

  lemma ChainIsProper(m: Parents, chain: seq<int>)
    requires ChainMap(m, chain)
    ensures Ordered(m) && NoForks(m)
  {
    forall s, t | s in m && t in m && m[s].Some? && m[s] == m[t] ensures m[s].value < s && s == t {
      var i :| 0 <= i < |chain| && chain[i] == s;
      var j :| 0 <= j < |chain| && chain[j] == t;
      assert i > 0 ==> m[s].value == chain[i - 1];
      assert j > 0 ==> m[t].value == chain[j - 1];
      assert i > 0 && j > 0 ==> i - 1 == j - 1;
    }
  }

  /** From every slot of the chain the walk goes to its end. */
  lemma {:induction false} ChainWalk(m: Parents, chain: seq<int>, i: nat)
    requires ChainMap(m, chain) && i < |chain|
    ensures Walk(m, chain[i]) == chain[|chain| - 1]
    decreases |chain| - i
  {
    ChainChildren(m, chain, i);
    if i + 1 < |chain| { ChainWalk(m, chain, i + 1); }
  }

  lemma ChainUpdates(events: Events, chain: seq<int>)
    requires ReportsChain(events, chain)
    ensures ParentsAgree(map[], SlotStates(events)) && KindsDisjoint(map[], SlotStates(events))
  {
    var us := SlotStates(events);
    forall u, v | u in us && v in us && u.slot == v.slot
      ensures u.finalized == v.finalized
      ensures u.parentSlot.Some? && v.parentSlot.Some? ==> u.parentSlot == v.parentSlot
    {
      var e := EventOf(events, u);
      var f := EventOf(events, v);
    }
  }

  lemma ChainRow(events: Events, chain: seq<int>, t: SlotTable, i: nat)
    requires ReportsChain(events, chain) && t == UpsertAll(map[], SlotStates(events)) && i < |chain|
    ensures var m := FinalizedParents(t);
            && chain[i] in m
            && if i > 0 then m[chain[i]] == Some(chain[i - 1])
               else m[chain[0]].Some? ==> m[chain[0]].value < chain[0]
  {
    var us, s := SlotStates(events), chain[i];
    ChainUpdates(events, chain);
    assert LinkReported(events, chain, i);
    var e :| e in events && Finalizes(e, s) && (i > 0 ==> e.payload.parent == Some(chain[i - 1]));
    var u := UpdateOf(events, e, s);
    RowAfter(map[], us, s);
    if i == 0 && t[s].parentSlot.Some? {
      var v :| v in us && v.slot == s && v.parentSlot.Some?;
      var f := EventOf(events, v);
    }
  }

  lemma ChainTable(events: Events, chain: seq<int>, t: SlotTable)
    requires ReportsChain(events, chain) && t == UpsertAll(map[], SlotStates(events))
    ensures ChainMap(FinalizedParents(t), chain)
  {
    var m := FinalizedParents(t);
    forall s ensures s in m <==> s in chain {
      if i :| 0 <= i < |chain| && chain[i] == s { ChainRow(events, chain, t, i); }
      FlagsFromEvents(map[], events, s);
    }
    ChainRow(events, chain, t, 0);
    forall i | 0 < i < |chain| ensures m[chain[i]] == Some(chain[i - 1]) {
      ChainRow(events, chain, t, i);
    }
  }

  lemma {:induction false} FirstSeedIsFinalized(t: SlotTable, batches: seq<Updates>)
    requires FirstSeed(None, t, batches).Some?
    ensures FirstSeed(None, t, batches).value in MapAfter(t, batches)
  {
    var front := batches[..|batches| - 1];
    if FirstSeed(None, t, front).Some? {
      FirstSeedIsFinalized(t, front);
      FlattenFront(batches);
      UpsertAllAppend(t, Flatten(front), batches[|batches| - 1]);
      FlagsAfter(TableAfter(t, front), batches[|batches| - 1], FirstSeed(None, t, front).value);
    }
  }

  lemma ChainHead(t: SlotTable, chain: seq<int>)
    requires ChainMap(FinalizedParents(t), chain)
    ensures HighestFinalized(t) == Some(chain[|chain| - 1])
  {
    var keys, last := FinalizedParents(t).Keys, chain[|chain| - 1];
    assert last in keys && forall s | s in keys :: s <= last;
  }

  lemma ChainWatermark(db: Db, batches: Batches, cfg: PipelineConfig, d: Db, chain: seq<int>)
    requires TracksWatermark(cfg) && Exec(db, batches, cfg) == Some(d)
    requires db.slots == map[] && Stored(db.cursor).None? && d.slots == UpsertAll(map[], SlotStates(Flatten(batches)))
    requires ChainMap(FinalizedParents(d.slots), chain) && AnyFinalized(SlotStates(Flatten(batches)))
    requires ParentsAgree(map[], SlotStates(Flatten(batches))) && KindsDisjoint(map[], SlotStates(Flatten(batches)))
    ensures Stored(d.cursor) == Some(chain[|chain| - 1])
  {
    ChainIsProper(FinalizedParents(d.slots), chain);
    RunCatchesUp(db, batches, cfg, d);
    ReportsFlatten(batches);
    FirstSeedIsFinalized(map[], Reports(batches));
    var i :| 0 <= i < |chain| && chain[i] == FirstSeed(None, map[], Reports(batches)).value;
    ChainWalk(FinalizedParents(d.slots), chain, i);
  }

  /**
   However the reports of a chain of finalized slots are ordered, repeated and batched, among any other events: from an
   empty slot table the watermark and the head end at the last slot of the chain.
   */
  lemma ChainEndsAtLast(db: Db, batches: Batches, cfg: PipelineConfig, d: Db, chain: seq<int>)
    requires TracksWatermark(cfg) && Exec(db, batches, cfg) == Some(d)
    requires db.slots == map[] && Stored(db.cursor).None? && HeadOf(db.cursor).None?
    requires ReportsChain(Flatten(batches), chain) && forall i | 0 <= i < |batches| :: batches[i] != []
    ensures Stored(d.cursor) == Some(chain[|chain| - 1]) && HeadOf(d.cursor) == Some(chain[|chain| - 1])
  {
    ExecTables(db, batches, cfg, d);
    ChainTable(Flatten(batches), chain, d.slots);
    ChainUpdates(Flatten(batches), chain);
    assert LinkReported(Flatten(batches), chain, 0);
    FinalizedReported(Flatten(batches));
    ChainWatermark(db, batches, cfg, d, chain);
    ExecMovesHead(db, batches, cfg, d);
    ChainHead(d.slots, chain);
  }
}
