/**
 The finalized parent chain: the greedy in-memory walk, the recursive SQL closure,
 and how the two are related.
 */
module SlotChain {
  import opened Base

  /** Finalized slots with the parent each one reported, if any. */
  type Parents = map<int, Option<int>>

  ghost function Children(m: Parents, parent: int): set<int> {
    set s | s in m && m[s] == Some(parent)
  }

  ghost predicate Ordered(m: Parents) {
    forall s | s in m && m[s].Some? :: m[s].value < s
  }

  ghost predicate NoForks(m: Parents) {
    forall s, t | s in m && t in m && m[s].Some? && m[s] == m[t] :: s == t
  }

  /** `later` knows every slot and every parent link that `m` knows. */
  ghost predicate Extends(m: Parents, later: Parents) {
    forall s | s in m :: s in later && (m[s].Some? ==> later[s] == m[s])
  }

  // ---------------------------------------------------------------- the greedy walk

  /** Step to the least child as long as that goes up. */
  ghost function Walk(m: Parents, seed: int): int
    decreases Above(m, seed)
  {
    var kids := Children(m, seed);
    if kids == {} || MinOf(kids) <= seed then seed
    else
      assert MinOf(kids) in Above(m, seed) && MinOf(kids) !in Above(m, MinOf(kids));
      Walk(m, MinOf(kids))
  }

  ghost function Above(m: Parents, x: int): set<int> {
    set s | s in m && s > x
  }

  ghost function AdvanceFrom(anchor: Option<int>, m: Parents): Option<int> {
    if anchor.Some? then Some(Walk(m, anchor.value))
    else if m.Keys == {} then None
    else Some(Walk(m, MinOf(m.Keys)))
  }

  class FinalizedMap {
    var parents: map<u64, Option<u64>>

    constructor ()
      ensures parents == map[]
    {
      parents := map[];
    }

    /** A later report replaces the parent only if it names one. */
    method Insert(slot: u64, parentSlot: Option<u64>)
      modifies this
      ensures parents == old(parents)[slot := if slot in old(parents) && parentSlot.None? then old(parents)[slot]
                                              else parentSlot]
    {
      if slot in parents {
        if parentSlot.Some? {
          parents := parents[slot := parentSlot];
        }
      } else {
        parents := parents[slot := parentSlot];
      }
    }

    method MinFinalized() returns (least: Option<u64>)
      ensures least.None? <==> parents.Keys == {}
      ensures least.Some? ==> least.value == MinOf(parents.Keys)
    {
      least := None;
      var rest := parents.Keys;
      while rest != {}
        invariant rest <= parents.Keys
        invariant least.None? <==> rest == parents.Keys
        invariant least.Some? ==> least.value in parents && forall s | s in parents.Keys - rest :: least.value <= s
      {
        ghost var before := parents.Keys - rest;
        ghost var some := Pick(rest);
        var slot :| slot in rest;
        rest := rest - {slot};
        assert parents.Keys - rest == before + {slot};
        if least.None? || slot < least.value {
          least := Some(slot);
        }
      }
      assert parents.Keys - rest == parents.Keys;
    }

    method MaxFinalized() returns (greatest: Option<u64>)
      ensures greatest.None? <==> parents.Keys == {}
      ensures greatest.Some? ==> greatest.value == MaxOf(parents.Keys)
    {
      greatest := None;
      var rest := parents.Keys;
      while rest != {}
        invariant rest <= parents.Keys
        invariant greatest.None? <==> rest == parents.Keys
        invariant greatest.Some? ==>
                    greatest.value in parents && forall s | s in parents.Keys - rest :: s <= greatest.value
      {
        ghost var before := parents.Keys - rest;
        ghost var some := Pick(rest);
        var slot :| slot in rest;
        rest := rest - {slot};
        assert parents.Keys - rest == before + {slot};
        if greatest.None? || slot > greatest.value {
          greatest := Some(slot);
        }
      }
      assert parents.Keys - rest == parents.Keys;
    }
  }

  method LeastOf(slots: seq<u64>) returns (least: u64)
    requires slots != []
    ensures least in slots && forall s | s in slots :: least <= s
  {
    least := slots[0];
    for i := 1 to |slots|
      invariant least in slots && forall j | 0 <= j < i :: least <= slots[j]
    {
      if slots[i] < least { least := slots[i]; }
    }
  }

  /** The index is built in whatever order the hash map yields its entries. */
  method Advance(anchor: Option<u64>, finalized: FinalizedMap) returns (head: Option<u64>)
    ensures head == AdvanceFrom(anchor, finalized.parents)
  {
    var parents := finalized.parents;
    var children: map<u64, seq<u64>> := map[];
    var rest := parents.Keys;
    while rest != {}
      invariant rest <= parents.Keys
      invariant forall p | p in children ::
                  children[p] != [] && forall c | c in children[p] :: c in parents && parents[c] == Some(p)
      invariant forall s | s in parents.Keys - rest && parents[s].Some? ::
                  parents[s].value in children && s in children[parents[s].value]
    {
      ghost var some := Pick(rest);
      var slot :| slot in rest;
      rest := rest - {slot};
      match parents[slot]
      case Some(parent) =>
        children := children[parent := (if parent in children then children[parent] else []) + [slot]];
      case None =>
    }

    var seed: u64;
    match anchor {
      case Some(a) => seed := a;
      case None =>
        var least := finalized.MinFinalized();
        if least.None? { return None; }
        seed := least.value;
    }

    var at := seed;
    while at in children
      invariant Walk(parents, at) == Walk(parents, seed)
      decreases Above(parents, at)
    {
      var child := LeastOf(children[at]);
      var kids := Children(parents, at);
      assert child in kids;
      assert MinOf(kids) in children[at];
      if child <= at { break; }
      assert child in Above(parents, at) && child !in Above(parents, child);
      at := child;
    }
    head := Some(at);
  }

  // ---------------------------------------------------------------- what the walk computes, on any map

  ghost predicate GreedyStep(m: Parents, a: int, b: int) {
    a < b && b in Children(m, a) && forall c | c in Children(m, a) :: b <= c
  }

  ghost predicate Stuck(m: Parents, a: int) {
    Children(m, a) != {} ==> exists c :: c in Children(m, a) && c <= a
  }

  /** A strictly rising path of finalized parent links, least child first, that cannot be continued. */
  ghost predicate GreedyPath(m: Parents, p: seq<int>) {
    && p != []
    && (forall i | 0 <= i < |p| - 1 :: GreedyStep(m, p[i], p[i + 1]))
    && Stuck(m, p[|p| - 1])
  }

  lemma {:induction false} GreedyPathEndsAtWalk(m: Parents, p: seq<int>)
    requires GreedyPath(m, p)
    ensures Walk(m, p[0]) == p[|p| - 1]
  {
    if |p| > 1 {
      assert GreedyStep(m, p[0], p[1]);
      var rest := p[1..];
      forall i | 0 <= i < |rest| - 1 ensures GreedyStep(m, rest[i], rest[i + 1]) {
        assert GreedyStep(m, p[i + 1], p[i + 2]);
      }
      GreedyPathEndsAtWalk(m, rest);
    }
  }

  lemma {:induction false} GreedyPathExists(m: Parents, seed: int) returns (p: seq<int>)
    ensures GreedyPath(m, p) && p[0] == seed && p[|p| - 1] == Walk(m, seed)
    decreases Above(m, seed)
  {
    var kids := Children(m, seed);
    if kids == {} || MinOf(kids) <= seed {
      p := [seed];
    } else {
      var next := MinOf(kids);
      assert next in Above(m, seed) && next !in Above(m, next);
      var rest := GreedyPathExists(m, next);
      p := [seed] + rest;
      assert GreedyStep(m, seed, next);
      forall i | 0 <= i < |p| - 1 ensures GreedyStep(m, p[i], p[i + 1]) {
        if i > 0 { assert GreedyStep(m, rest[i - 1], rest[i]); }
      }
    }
  }

  /** On every map, cycles and forks included, the walk ends exactly where the unique greedy path from the seed ends. */
  lemma WalkIsGreedyEnd(m: Parents, seed: int, head: int)
    ensures Walk(m, seed) == head <==> exists p :: GreedyPath(m, p) && p[0] == seed && p[|p| - 1] == head
  {
    var path := GreedyPathExists(m, seed);
    forall p | GreedyPath(m, p) && p[0] == seed ensures p[|p| - 1] == Walk(m, seed) {
      GreedyPathEndsAtWalk(m, p);
    }
  }

  lemma {:induction false} WalkNeverDrops(m: Parents, seed: int)
    ensures seed <= Walk(m, seed) && Linked(m, seed, Walk(m, seed))
    ensures Ordered(m) ==> Children(m, Walk(m, seed)) == {}
    decreases Above(m, seed)
  {
    var kids := Children(m, seed);
    assert Up(m, seed, 0) == Some(seed);
    if kids != {} && MinOf(kids) > seed {
      var next := MinOf(kids);
      assert next in Above(m, seed) && next !in Above(m, next);
      WalkNeverDrops(m, next);
      assert Up(m, next, 1) == Some(seed) by { assert Up(m, seed, 0) == Some(seed); }
      LinkedTransitive(m, seed, next, Walk(m, seed));
    }
  }

  // ---------------------------------------------------------------- ancestors

  /** The slot reached from `x` by following `k` parent links, all of them of finalized slots. */
  ghost function Up(m: Parents, x: int, k: nat): Option<int>
    decreases k
  {
    if k == 0 then Some(x)
    else if x in m && m[x].Some? then Up(m, m[x].value, k - 1)
    else None
  }

  ghost predicate Linked(m: Parents, ancestor: int, x: int) {
    exists k: nat :: Up(m, x, k) == Some(ancestor)
  }

  ghost predicate OnCycle(m: Parents, x: int) {
    exists k: nat :: k > 0 && Up(m, x, k) == Some(x)
  }

  lemma {:induction false} UpCompose(m: Parents, x: int, j: nat, k: nat)
    ensures Up(m, x, j + k) == if Up(m, x, j).Some? then Up(m, Up(m, x, j).value, k) else None
    decreases j
  {
    if j > 0 && x in m && m[x].Some? {
      UpCompose(m, m[x].value, j - 1, k);
    }
  }

  lemma LinkedTransitive(m: Parents, a: int, b: int, c: int)
    requires Linked(m, a, b) && Linked(m, b, c)
    ensures Linked(m, a, c)
  {
    var j: nat :| Up(m, b, j) == Some(a);
    var k: nat :| Up(m, c, k) == Some(b);
    UpCompose(m, c, k, j);
  }

  lemma {:induction false} UpExtends(m: Parents, later: Parents, x: int, k: nat)
    requires Extends(m, later) && Up(m, x, k).Some?
    ensures Up(later, x, k) == Up(m, x, k)
    decreases k
  {
    if k > 0 { UpExtends(m, later, m[x].value, k - 1); }
  }

  lemma LinkedExtends(m: Parents, later: Parents, a: int, x: int)
    requires Extends(m, later) && Linked(m, a, x)
    ensures Linked(later, a, x)
  {
    var k: nat :| Up(m, x, k) == Some(a);
    UpExtends(m, later, x, k);
  }

  lemma {:induction false} OrderedUp(m: Parents, x: int, k: nat)
    requires Ordered(m) && Up(m, x, k).Some?
    ensures Up(m, x, k).value + k <= x
    decreases k
  {
    if k > 0 { OrderedUp(m, m[x].value, k - 1); }
  }

  lemma OrderedHasNoCycle(m: Parents, x: int)
    requires Ordered(m)
    ensures !OnCycle(m, x)
  {
    forall k: nat | k > 0 ensures Up(m, x, k) != Some(x) {
      if Up(m, x, k).Some? { OrderedUp(m, x, k); }
    }
  }

  // ---------------------------------------------------------------- the recursive query

  /** The rows the recursive term yields in its `k`-th round. */
  ghost function Level(m: Parents, seed: int, k: nat): set<int> {
    set x | x in m.Keys + {seed} && Up(m, x, k) == Some(seed)
  }

  /** All rows of the closure: the seed and every finalized slot whose parent links lead to it. */
  ghost function Chain(m: Parents, seed: int): set<int> {
    set x | x in m.Keys + {seed} && Linked(m, seed, x)
  }

  ghost function ChainMax(m: Parents, seed: int): int {
    assert Up(m, seed, 0) == Some(seed);
    assert seed in Chain(m, seed);
    MaxOf(Chain(m, seed))
  }

  /** The recursive term: finalized rows joined to the previous round on their parent. */
  function Joined(m: Parents, round: set<int>): set<int> {
    set s | s in m && m[s].Some? && m[s].value in round
  }

  lemma FirstLevel(m: Parents, seed: int)
    ensures Level(m, seed, 0) == {seed}
  {
  }

  lemma NextLevel(m: Parents, seed: int, k: nat)
    ensures Level(m, seed, k + 1) == Joined(m, Level(m, seed, k))
  {
    forall s ensures s in Level(m, seed, k + 1) <==> s in Joined(m, Level(m, seed, k)) {
      if s in m && m[s].Some? && Up(m, m[s].value, k) == Some(seed) {
        assert m[s].value in m.Keys + {seed};
      }
    }
  }

  lemma {:induction false} EmptyLevelStays(m: Parents, seed: int, k: nat, j: nat)
    requires k <= j && Level(m, seed, k) == {}
    ensures Level(m, seed, j) == {}
  {
    if k < j {
      EmptyLevelStays(m, seed, k, j - 1);
      NextLevel(m, seed, j - 1);
    }
  }

  lemma UpStaysFinalized(m: Parents, x: int, k: nat, i: nat)
    requires Up(m, x, k).Some? && i < k
    ensures Up(m, x, i).Some? && Up(m, x, i).value in m
  {
    UpCompose(m, x, i, k - i);
  }

  /** More rounds than rows repeat an ancestor; since a slot has one parent, the seed itself is then on the cycle. */
  lemma DeepLevelMeansCycle(m: Parents, seed: int, k: nat)
    requires Level(m, seed, k) != {} && k > |m|
    ensures OnCycle(m, seed)
  {
    var x := Pick(Level(m, seed, k));
    forall i | 0 <= i < k ensures Up(m, x, i).Some? && Up(m, x, i).value in m {
      UpStaysFinalized(m, x, k, i);
    }
    var line := seq(k, i requires 0 <= i < k => Up(m, x, i).value);
    assert |m.Keys| == |m|;
    var i, j := Pigeonhole(line, m.Keys);
    var y := line[i];
    UpCompose(m, x, i, j - i);
    UpCompose(m, x, i, k - i);
    assert Up(m, y, j - i) == Some(y) && Up(m, y, k - i) == Some(seed);
    UpCompose(m, y, j - i, k - i);
    UpCompose(m, y, k - i, j - i);
    assert Up(m, seed, j - i) == Some(seed);
  }

  lemma {:induction false} CycleRepeats(m: Parents, x: int, period: nat, n: nat)
    requires Up(m, x, period) == Some(x)
    ensures Up(m, x, period * n) == Some(x)
  {
    if n > 0 {
      CycleRepeats(m, x, period, n - 1);
      UpCompose(m, x, period * (n - 1), period);
      assert period * (n - 1) + period == period * n;
    }
  }

  lemma CycleNeverDriesUp(m: Parents, seed: int, k: nat)
    requires OnCycle(m, seed)
    ensures Level(m, seed, k) != {}
  {
    var period: nat :| period > 0 && Up(m, seed, period) == Some(seed);
    CycleRepeats(m, seed, period, k);
    var total := period * k;
    assert k <= total by { assert 1 * k <= period * k; }
    UpCompose(m, seed, total - k, k);
    var x := Up(m, seed, total - k).value;
    assert Up(m, x, k) == Some(seed);
    assert x in Level(m, seed, k);
  }

  /** The query comes to an end exactly when the seed is not on a cycle of finalized parent links. */
  lemma ChainQueryEndsIff(m: Parents, seed: int)
    ensures (exists k: nat :: Level(m, seed, k) == {}) <==> !OnCycle(m, seed)
  {
    if OnCycle(m, seed) {
      forall k: nat ensures Level(m, seed, k) != {} { CycleNeverDriesUp(m, seed, k); }
    } else {
      if Level(m, seed, |m| + 1) != {} { DeepLevelMeansCycle(m, seed, |m| + 1); }
    }
  }

  /** The rows of the first `k` rounds. */
  ghost function Rounds(m: Parents, seed: int, k: nat): set<int> {
    if k == 0 then {} else Rounds(m, seed, k - 1) + Level(m, seed, k - 1)
  }

  lemma {:induction false} RoundsAre(m: Parents, seed: int, k: nat, x: int)
    ensures x in Rounds(m, seed, k) <==> exists i: nat :: i < k && x in Level(m, seed, i)
  {
    if k > 0 { RoundsAre(m, seed, k - 1, x); }
  }

  lemma DriedUpIsComplete(m: Parents, seed: int, k: nat)
    requires Level(m, seed, k) == {}
    ensures !OnCycle(m, seed) && Rounds(m, seed, k) == Chain(m, seed)
  {
    if OnCycle(m, seed) { CycleNeverDriesUp(m, seed, k); }
    forall x ensures x in Rounds(m, seed, k) <==> x in Chain(m, seed) {
      RoundsAre(m, seed, k, x);
      if x in Chain(m, seed) {
        var i: nat :| Up(m, x, i) == Some(seed);
        assert x in Level(m, seed, i);
        if i >= k { EmptyLevelStays(m, seed, k, i); }
      }
    }
  }

  /** Round by round, as the recursive query is evaluated; `None` stands for a query that never returns. */
  method RunChainQuery(m: Parents, seed: int) returns (chain: Option<set<int>>)
    ensures chain.None? <==> OnCycle(m, seed)
    ensures chain.Some? ==> chain.value == Chain(m, seed)
  {
    var working: set<int>, all: set<int>, k: nat := {seed}, {}, 0;
    FirstLevel(m, seed);
    while working != {} && k <= |m|
      invariant k <= |m| + 1
      invariant working == Level(m, seed, k)
      invariant all == Rounds(m, seed, k)
      decreases |m| + 1 - k
    {
      NextLevel(m, seed, k);
      assert Rounds(m, seed, k + 1) == all + working;
      all, working, k := all + working, Joined(m, working), k + 1;
    }
    if working != {} {
      DeepLevelMeansCycle(m, seed, k);
      chain := None;
    } else {
      DriedUpIsComplete(m, seed, k);
      chain := Some(all);
    }
  }

  // ---------------------------------------------------------------- walk against closure

  /** On every map the walk stays inside the closure, so it never overtakes its maximum. */
  lemma WalkBelowClosure(m: Parents, seed: int)
    ensures Walk(m, seed) in Chain(m, seed) && Walk(m, seed) <= ChainMax(m, seed)
  {
    WalkNeverDrops(m, seed);
    var head := Walk(m, seed);
    var k: nat :| Up(m, head, k) == Some(seed);
    assert head in m.Keys + {seed};
  }

  lemma {:induction false} ChainLeadsToWalk(m: Parents, seed: int, x: int, k: nat)
    requires Ordered(m) && NoForks(m) && Up(m, x, k) == Some(seed)
    ensures x <= Walk(m, seed)
    decreases k
  {
    if k == 0 {
      WalkNeverDrops(m, seed);
    } else {
      UpCompose(m, x, k - 1, 1);
      var child := Up(m, x, k - 1).value;
      assert Up(m, child, 1) == Some(seed) ==> child in m && m[child].Some? && Up(m, m[child].value, 0) == Some(seed);
      assert child in Children(m, seed);
      assert MinOf(Children(m, seed)) == child;
      ChainLeadsToWalk(m, child, x, k - 1);
    }
  }

  /** Without forks, and with parents below their slots, both forms find the same watermark. */
  lemma WalkIsClosureMax(m: Parents, seed: int)
    requires Ordered(m) && NoForks(m)
    ensures Walk(m, seed) == ChainMax(m, seed)
  {
    WalkBelowClosure(m, seed);
    forall x | x in Chain(m, seed) ensures x <= Walk(m, seed) {
      var k: nat :| Up(m, x, k) == Some(seed);
      ChainLeadsToWalk(m, seed, x, k);
    }
  }

  /** The `i`-th parent link above `top` leads to a slot of which the slot below it is the least child. */
  ghost predicate LeastStep(m: Parents, top: int, i: nat) {
    Up(m, top, i).Some? && Up(m, top, i + 1).Some? && GreedyStep(m, Up(m, top, i + 1).value, Up(m, top, i).value)
  }

  ghost predicate LeastLine(m: Parents, seed: int, top: int, k: nat) {
    Up(m, top, k) == Some(seed) && forall i: nat | i < k :: LeastStep(m, top, i)
  }

  /** From the seed down to `top` the slots are least children throughout. */
  ghost predicate LeastChildren(m: Parents, seed: int, top: int) {
    exists k: nat :: LeastLine(m, seed, top, k)
  }

  lemma {:induction false} LeastLineIsWalked(m: Parents, top: int, k: nat)
    requires Up(m, top, k).Some? && forall i: nat | i < k :: LeastStep(m, top, i)
    ensures Walk(m, Up(m, top, k).value) == Walk(m, top)
  {
    if k > 0 {
      assert LeastStep(m, top, k - 1);
      var parent, child := Up(m, top, k).value, Up(m, top, k - 1).value;
      assert child in Children(m, parent) && MinOf(Children(m, parent)) == child;
      LeastLineIsWalked(m, top, k - 1);
    }
  }

  /** Read backwards, a greedy path is the ancestor line of its end. */
  lemma {:induction false} GreedyPathUp(m: Parents, p: seq<int>, i: nat)
    requires GreedyPath(m, p) && i < |p|
    ensures Up(m, p[|p| - 1], i) == Some(p[|p| - 1 - i])
  {
    if i > 0 {
      GreedyPathUp(m, p, i - 1);
      var at := |p| - 1 - i;
      assert GreedyStep(m, p[at], p[at + 1]);
      UpCompose(m, p[|p| - 1], i - 1, 1);
      assert Up(m, p[at + 1], 1) == Some(p[at]) by { assert Up(m, p[at], 0) == Some(p[at]); }
    }
  }

  lemma GreedyPathIsLeastLine(m: Parents, p: seq<int>)
    requires GreedyPath(m, p)
    ensures LeastChildren(m, p[0], p[|p| - 1])
  {
    var top, k := p[|p| - 1], |p| - 1;
    GreedyPathUp(m, p, k);
    forall i: nat | i < k ensures LeastStep(m, top, i) {
      GreedyPathUp(m, p, i);
      GreedyPathUp(m, p, i + 1);
      assert GreedyStep(m, p[k - i - 1], p[k - i]);
    }
    assert LeastLine(m, p[0], top, k);
  }

  /** Nothing finalized stands above the closure's maximum, so a walk that gets there stays. */
  lemma ClosureMaxIsStuck(m: Parents, seed: int)
    ensures Walk(m, ChainMax(m, seed)) == ChainMax(m, seed)
  {
    var top := ChainMax(m, seed);
    var k: nat :| Up(m, top, k) == Some(seed);
    var kids := Children(m, top);
    if kids != {} {
      var c := MinOf(kids);
      assert Up(m, c, 1 + k) == Some(seed) by {
        UpCompose(m, c, 1, k);
        assert Up(m, c, 1) == Some(top) by { assert Up(m, top, 0) == Some(top); }
      }
      assert c in Chain(m, seed);
    }
  }

  /**
   On every map, forked or not: the two forms find the same watermark exactly when the ancestor line of the closure's
   highest row, down to the seed, consists of least children.
   */
  lemma WalkIsClosureMaxIff(m: Parents, seed: int)
    ensures Walk(m, seed) == ChainMax(m, seed) <==> LeastChildren(m, seed, ChainMax(m, seed))
  {
    var top := ChainMax(m, seed);
    if Walk(m, seed) == top {
      var p := GreedyPathExists(m, seed);
      GreedyPathIsLeastLine(m, p);
    }
    if LeastChildren(m, seed, top) {
      var k: nat :| LeastLine(m, seed, top, k);
      LeastLineIsWalked(m, top, k);
      ClosureMaxIsStuck(m, seed);
    }
  }

  /** A fork whose lesser child is a dead end: the walk takes that child, the closure the higher leaf. */
  lemma ForkSeparatesWalkFromClosure()
    ensures var fork: Parents := map[2 := Some(1), 3 := Some(1)];
            Ordered(fork) && !NoForks(fork) && Walk(fork, 1) == 2 && ChainMax(fork, 1) == 3
  {
    var fork: Parents := map[2 := Some(1), 3 := Some(1)];
    assert GreedyStep(fork, 1, 2) by { assert Children(fork, 1) == {2, 3}; }
    assert Children(fork, 2) == {};
    assert GreedyPath(fork, [1, 2]);
    GreedyPathEndsAtWalk(fork, [1, 2]);
    assert Up(fork, 3, 1) == Some(1) by { assert Up(fork, 1, 0) == Some(1); }
    assert 3 in Chain(fork, 1);
  }

  // ---------------------------------------------------------------- growing maps

  /** Walking from where an earlier walk stopped gives what one walk from the original seed gives. */
  lemma {:induction false} WalkResumes(m: Parents, later: Parents, seed: int)
    requires Extends(m, later) && Ordered(later) && NoForks(later)
    ensures Walk(later, Walk(m, seed)) == Walk(later, seed)
    decreases Above(m, seed)
  {
    var kids := Children(m, seed);
    if kids != {} && MinOf(kids) > seed {
      var next := MinOf(kids);
      assert next in Above(m, seed) && next !in Above(m, next);
      assert next in Children(later, seed);
      assert MinOf(Children(later, seed)) == next;
      WalkResumes(m, later, next);
    }
  }
}
