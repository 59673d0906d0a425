/** Machine-integer ranges and the small value types every other module shares. */
module Base {
  datatype Option<+T> = None | Some(value: T)

  datatype Result<+T, +E> = Ok(value: T) | Err(error: E)

  const MAX_U64: int := 0xFFFF_FFFF_FFFF_FFFF
  const MAX_U32: int := 0xFFFF_FFFF
  const MAX_U16: int := 0xFFFF
  const MAX_I64: int := 0x7FFF_FFFF_FFFF_FFFF
  const MIN_I64: int := -0x8000_0000_0000_0000

  type u64 = x: int | 0 <= x <= MAX_U64
  type u32 = x: int | 0 <= x <= MAX_U32
  type u16 = x: int | 0 <= x <= MAX_U16
  type i64 = x: int | MIN_I64 <= x <= MAX_I64

  function Max(a: int, b: int): int { if a >= b then a else b }

  function Min(a: int, b: int): int { if a <= b then a else b }

  /** SQL `GREATEST` of two nullable numbers: a NULL argument is ignored. */
  function Greatest(a: Option<int>, b: Option<int>): Option<int> {
    if a.None? then b else if b.None? then a else Some(Max(a.value, b.value))
  }

  /** SQL `COALESCE` of two nullable numbers: the first one that is not NULL. */
  function Coalesce(a: Option<int>, b: Option<int>): Option<int> {
    if a.Some? then a else b
  }

  /** The order in which an unset cursor lies below every set one. */
  predicate AtMost(a: Option<int>, b: Option<int>) {
    a.Some? ==> b.Some? && a.value <= b.value
  }

  /** Concatenation of a sequence of batches. */
  function Flatten<T>(batches: seq<seq<T>>): seq<T> {
    if batches == [] then [] else batches[0] + Flatten(batches[1..])
  }

  lemma {:induction false} FlattenAppend<T>(a: seq<seq<T>>, b: seq<seq<T>>)
    ensures Flatten(a + b) == Flatten(a) + Flatten(b)
  {
    if a == [] {
      assert a + b == b;
    } else {
      FlattenAppend(a[1..], b);
      assert (a + b)[1..] == a[1..] + b;
      assert a[0] + (Flatten(a[1..]) + Flatten(b)) == (a[0] + Flatten(a[1..])) + Flatten(b);
    }
  }

  lemma FlattenOne<T>(batch: seq<T>)
    ensures Flatten([batch]) == batch
  {
    assert Flatten([batch]) == batch + Flatten<T>([]);
  }

  lemma FlattenSnoc<T>(a: seq<seq<T>>, last: seq<T>)
    ensures Flatten(a + [last]) == Flatten(a) + last
  {
    FlattenAppend(a, [last]);
    FlattenOne(last);
  }

  /** Some element of a non-empty set. */
  ghost function Pick<T>(s: set<T>): (x: T)
    requires s != {}
    ensures x in s
  {
    var x :| x in s;
    x
  }

  ghost function MinOf(s: set<int>): (m: int)
    requires s != {}
    ensures m in s && forall y | y in s :: m <= y
  {
    HasMin(s);
    var x :| x in s && forall y | y in s :: x <= y;
    x
  }

  ghost function MaxOf(s: set<int>): (m: int)
    requires s != {}
    ensures m in s && forall y | y in s :: y <= m
  {
    HasMax(s);
    var x :| x in s && forall y | y in s :: y <= x;
    x
  }

  lemma {:induction false} HasMin(s: set<int>)
    requires s != {}
    ensures exists x :: x in s && forall y | y in s :: x <= y
  {
    var x := Pick(s);
    var rest := s - {x};
    if rest == {} {
      assert forall y | y in s :: y == x || y in rest;
    } else {
      HasMin(rest);
      var m: int :| m in rest && forall y | y in rest :: m <= y;
      var least := Min(x, m);
      assert forall y | y in s :: y == x || y in rest;
      assert least in s && forall y | y in s :: least <= y;
    }
  }

  lemma HasMax(s: set<int>)
    requires s != {}
    ensures exists x :: x in s && forall y | y in s :: y <= x
  {
    var negated := set y | y in s :: -y;
    assert negated != {} by {
      assert -Pick(s) in negated;
    }
    HasMin(negated);
    var m: int :| m in negated && forall y | y in negated :: m <= y;
    assert -m in s;
    forall y | y in s ensures y <= -m {
      assert -y in negated;
    }
  }

  /** Among more elements than values there are two equal ones. */
  lemma {:induction false} Pigeonhole(s: seq<int>, values: set<int>) returns (i: nat, j: nat)
    requires forall k :: 0 <= k < |s| ==> s[k] in values
    requires |values| < |s|
    ensures i < j < |s| && s[i] == s[j]
  {
    var last := |s| - 1;
    if k: nat :| k < last && s[k] == s[last] {
      return k, last;
    }
    var fewer := values - {s[last]};
    assert |fewer| == |values| - 1;
    i, j := Pigeonhole(s[..last], fewer);
  }
}
