/** Token balance changes of one transaction, and the two-legged swap that may be read from them. */
module SwapInference {
  import opened Base

  datatype TokenBalanceDelta = TokenBalanceDelta(account: string, mint: string, preAmount: i64, postAmount: i64)

  datatype DexSwap = DexSwap(slot: u64, signature: string, programId: string, tokenIn: string, tokenInAmount: u64,
                             tokenOut: string, tokenOutAmount: u64)

  datatype Ambiguity = NotTwoNonZero(count: nat) | NoCleanPair | SameMint

  datatype DecodeError =
    | InvalidTokenBalance(account: string, field: string)
    | MissingTokenBalances
    | AmbiguousSwap(reason: Ambiguity)

  // ---------------------------------------------------------------- extraction

  /** One row of `token_balances`; a field is unset if it is missing or of another type. */
  datatype BalanceRow = BalanceRow(account: Option<string>, mint: Option<string>, pre: Option<i64>, post: Option<i64>)

  function TextOr(text: Option<string>): string {
    if text.Some? then text.value else ""
  }

  predicate Complete(row: BalanceRow) {
    row.pre.Some? && row.post.Some?
  }

  /** A missing text counts as empty. */
  ghost predicate IsText(text: string, field: Option<string>) {
    field == Some(text) || (field.None? && text == "")
  }

  /** The delta has the row's two texts and both of its amounts. */
  ghost predicate IsDeltaOf(row: BalanceRow, d: TokenBalanceDelta) {
    && IsText(d.account, row.account) && IsText(d.mint, row.mint)
    && row.pre == Some(d.preAmount) && row.post == Some(d.postAmount)
  }

  /** All rows in order, or the complaint about the first incomplete one. */
  method ExtractTokenBalanceDeltas(rows: Option<seq<BalanceRow>>)
    returns (r: Result<seq<TokenBalanceDelta>, DecodeError>)
    ensures rows.None? ==> r == Err(MissingTokenBalances)
    ensures r.Ok? <==> rows.Some? && forall i | 0 <= i < |rows.value| :: Complete(rows.value[i])
    ensures r.Ok? ==> |r.value| == |rows.value| && forall i | 0 <= i < |r.value| :: IsDeltaOf(rows.value[i], r.value[i])
    ensures rows.Some? && r.Err? ==> exists i ::
              && 0 <= i < |rows.value| && !Complete(rows.value[i])
              && (forall k | 0 <= k < i :: Complete(rows.value[k]))
              && r.error.InvalidTokenBalance? && IsText(r.error.account, rows.value[i].account)
              && r.error.field == if rows.value[i].pre.None? then "pre" else "post"
  {
    if rows.None? { return Err(MissingTokenBalances); }
    var deltas: seq<TokenBalanceDelta> := [];
    for i := 0 to |rows.value|
      invariant |deltas| == i
      invariant forall k | 0 <= k < i :: IsDeltaOf(rows.value[k], deltas[k])
    {
      var row := rows.value[i];
      var account, mint := TextOr(row.account), TextOr(row.mint);
      if row.pre.None? {
        assert !Complete(rows.value[i]) && IsText(account, rows.value[i].account);
        return Err(InvalidTokenBalance(account, "pre"));
      }
      if row.post.None? {
        assert !Complete(rows.value[i]) && IsText(account, rows.value[i].account);
        return Err(InvalidTokenBalance(account, "post"));
      }
      deltas := deltas + [TokenBalanceDelta(account, mint, row.pre.value, row.post.value)];
    }
    r := Ok(deltas);
  }

  // ---------------------------------------------------------------- inference

  /** 64-bit subtraction, wrapping around. */
  function Delta(d: TokenBalanceDelta): i64 {
    var difference := d.preAmount - d.postAmount;
    if difference > MAX_I64 then difference - MAX_U64 - 1
    else if difference < MIN_I64 then difference + MAX_U64 + 1
    else difference
  }

  /** What an account gives away is positive; beyond 64 bits the difference is taken modulo 2^64. */
  lemma DeltaIsDifference(d: TokenBalanceDelta)
    ensures (Delta(d) - (d.preAmount - d.postAmount)) % 0x1_0000_0000_0000_0000 == 0
    ensures MIN_I64 <= d.preAmount - d.postAmount <= MAX_I64 ==> Delta(d) == d.preAmount - d.postAmount
  {
  }

  function UnsignedAbs(x: i64): u64 {
    Max(x, 0 - x)
  }

  function NonZero(deltas: seq<TokenBalanceDelta>): seq<TokenBalanceDelta> {
    if deltas == [] then []
    else (if Delta(deltas[0]) != 0 then [deltas[0]] else []) + NonZero(deltas[1..])
  }

  function InferSwap(slot: u64, signature: string, programId: string, deltas: seq<TokenBalanceDelta>)
    : Result<DexSwap, DecodeError>
  {
    var nonZero := NonZero(deltas);
    if |nonZero| != 2 then Err(AmbiguousSwap(NotTwoNonZero(|nonZero|)))
    else
      var a, b := nonZero[0], nonZero[1];
      if Delta(a) > 0 && Delta(b) < 0 then SwapOf(slot, signature, programId, a, b)
      else if Delta(a) < 0 && Delta(b) > 0 then SwapOf(slot, signature, programId, b, a)
      else Err(AmbiguousSwap(NoCleanPair))
  }

  function SwapOf(slot: u64, signature: string, programId: string, sender: TokenBalanceDelta,
                  receiver: TokenBalanceDelta): Result<DexSwap, DecodeError>
  {
    if sender.mint == receiver.mint then Err(AmbiguousSwap(SameMint))
    else Ok(DexSwap(slot, signature, programId, sender.mint, UnsignedAbs(Delta(sender)), receiver.mint,
                    UnsignedAbs(Delta(receiver))))
  }

  // ---------------------------------------------------------------- order and zeros do not matter

  /** Filtering by non-zero delta, element by element of the multiset. */
  lemma {:induction false} NonZeroCounts(deltas: seq<TokenBalanceDelta>, d: TokenBalanceDelta)
    ensures multiset(NonZero(deltas))[d] == if Delta(d) != 0 then multiset(deltas)[d] else 0
  {
    if deltas != [] {
      NonZeroCounts(deltas[1..], d);
      assert deltas == [deltas[0]] + deltas[1..];
    }
  }

  lemma TwoElements(s: seq<TokenBalanceDelta>, t: seq<TokenBalanceDelta>)
    requires multiset(s) == multiset(t)
    ensures |s| == |t|
    ensures |s| == 2 ==> (s[0] == t[0] && s[1] == t[1]) || (s[0] == t[1] && s[1] == t[0])
  {
    assert |multiset(s)| == |s| && |multiset(t)| == |t|;
    if |s| == 2 {
      assert s == [s[0], s[1]] && t == [t[0], t[1]];
      assert multiset(s) == multiset{s[0], s[1]} && multiset(t) == multiset{t[0], t[1]};
      assert s[0] in multiset(t) && s[1] in multiset(t);
      if s[0] == t[0] {
        assert multiset(s) - multiset{s[0]} == multiset{s[1]};
        assert multiset(t) - multiset{s[0]} == multiset{t[1]};
        assert s[1] in multiset{t[1]};
      } else {
        assert multiset(s) - multiset{s[0]} == multiset{s[1]};
        assert multiset(t) - multiset{s[0]} == multiset{t[0]};
        assert s[1] in multiset{t[0]};
      }
    }
  }

  /** The outcome, errors included, depends only on how often each non-zero delta occurs. */
  lemma OnlyNonZeroDeltasMatter(slot: u64, signature: string, programId: string, a: seq<TokenBalanceDelta>,
                                b: seq<TokenBalanceDelta>)
    requires forall d | Delta(d) != 0 :: multiset(a)[d] == multiset(b)[d]
    ensures InferSwap(slot, signature, programId, a) == InferSwap(slot, signature, programId, b)
  {
    forall d ensures multiset(NonZero(a))[d] == multiset(NonZero(b))[d] {
      NonZeroCounts(a, d);
      NonZeroCounts(b, d);
    }
    assert multiset(NonZero(a)) == multiset(NonZero(b));
    TwoElements(NonZero(a), NonZero(b));
  }

  /** Hence any reordering, and any zero delta put in anywhere, leaves the outcome as it is. */
  lemma OrderAndZerosDoNotMatter(slot: u64, signature: string, programId: string, a: seq<TokenBalanceDelta>,
                                 b: seq<TokenBalanceDelta>, zero: TokenBalanceDelta, at: nat)
    requires multiset(a) == multiset(b) && Delta(zero) == 0 && at <= |b|
    ensures InferSwap(slot, signature, programId, a)
         == InferSwap(slot, signature, programId, b[..at] + [zero] + b[at..])
  {
    assert b == b[..at] + b[at..];
    OnlyNonZeroDeltasMatter(slot, signature, programId, a, b[..at] + [zero] + b[at..]);
  }

  // ---------------------------------------------------------------- exactly when there is a swap

  /** `giver` and `taker` are the only accounts that change, in opposite directions and in different mints. */
  ghost predicate CleanPair(deltas: seq<TokenBalanceDelta>, giver: TokenBalanceDelta, taker: TokenBalanceDelta) {
    && Delta(giver) > 0 && Delta(taker) < 0 && giver.mint != taker.mint
    && multiset(NonZero(deltas)) == multiset{giver, taker}
  }

  lemma CleanPairDecides(slot: u64, signature: string, programId: string, deltas: seq<TokenBalanceDelta>,
                         giver: TokenBalanceDelta, taker: TokenBalanceDelta)
    requires CleanPair(deltas, giver, taker)
    ensures InferSwap(slot, signature, programId, deltas)
         == Ok(DexSwap(slot, signature, programId, giver.mint, Delta(giver), taker.mint, 0 - Delta(taker)))
  {
    assert multiset([giver, taker]) == multiset{giver, taker};
    TwoElements(NonZero(deltas), [giver, taker]);
  }

  lemma SwapHasCleanPair(slot: u64, signature: string, programId: string, deltas: seq<TokenBalanceDelta>)
    returns (giver: TokenBalanceDelta, taker: TokenBalanceDelta)
    requires InferSwap(slot, signature, programId, deltas).Ok?
    ensures CleanPair(deltas, giver, taker)
  {
    var s := NonZero(deltas);
    giver, taker := s[0], s[1];
    assert s == [giver, taker];
    assert multiset(s) == multiset{giver, taker};
    if Delta(giver) < 0 { giver, taker := taker, giver; }
  }

  /** A swap is inferred exactly from a clean pair, with the giver's side going in and the taker's coming out. */
  lemma SwapIffCleanPair(slot: u64, signature: string, programId: string, deltas: seq<TokenBalanceDelta>)
    ensures InferSwap(slot, signature, programId, deltas).Ok?
       <==> exists giver, taker :: CleanPair(deltas, giver, taker)
  {
    if InferSwap(slot, signature, programId, deltas).Ok? {
      var giver, taker := SwapHasCleanPair(slot, signature, programId, deltas);
    }
    if giver, taker :| CleanPair(deltas, giver, taker) {
      CleanPairDecides(slot, signature, programId, deltas, giver, taker);
    }
  }

  // ---------------------------------------------------------------- which complaint there is otherwise

  /** The positions of the non-zero deltas. */
  ghost function Changed(deltas: seq<TokenBalanceDelta>): set<int> {
    set i | 0 <= i < |deltas| && Delta(deltas[i]) != 0
  }

  lemma {:induction false} NonZeroSnoc(deltas: seq<TokenBalanceDelta>, last: TokenBalanceDelta)
    ensures NonZero(deltas + [last]) == NonZero(deltas) + if Delta(last) != 0 then [last] else []
  {
    if deltas == [] {
      assert deltas + [last] == [last] && [last][1..] == [];
    } else {
      assert (deltas + [last])[1..] == deltas[1..] + [last];
      NonZeroSnoc(deltas[1..], last);
    }
  }

  lemma ChangedSnoc(deltas: seq<TokenBalanceDelta>)
    requires deltas != []
    ensures var front, n := deltas[..|deltas| - 1], |deltas| - 1;
            && Changed(deltas) == Changed(front) + (if Delta(deltas[n]) != 0 then {n} else {})
            && n !in Changed(front)
            && NonZero(deltas) == NonZero(front) + if Delta(deltas[n]) != 0 then [deltas[n]] else []
  {
    var front := deltas[..|deltas| - 1];
    assert deltas == front + [deltas[|deltas| - 1]];
    NonZeroSnoc(front, deltas[|deltas| - 1]);
  }

  lemma {:induction false} NonZeroCount(deltas: seq<TokenBalanceDelta>)
    ensures |NonZero(deltas)| == |Changed(deltas)|
  {
    if deltas != [] {
      ChangedSnoc(deltas);
      NonZeroCount(deltas[..|deltas| - 1]);
    }
  }

  lemma {:induction false} NonZeroOne(deltas: seq<TokenBalanceDelta>, i: nat)
    requires Changed(deltas) == {i}
    ensures i < |deltas| && NonZero(deltas) == [deltas[i]]
  {
    assert i in Changed(deltas);
    ChangedSnoc(deltas);
    var front, n := deltas[..|deltas| - 1], |deltas| - 1;
    if n == i {
      assert Changed(front) == Changed(deltas) - {n} == {};
      NonZeroCount(front);
    } else {
      assert n !in Changed(deltas);
      NonZeroOne(front, i);
    }
  }

  lemma {:induction false} NonZeroPair(deltas: seq<TokenBalanceDelta>, i: nat, j: nat)
    requires i < j && Changed(deltas) == {i, j}
    ensures j < |deltas| && NonZero(deltas) == [deltas[i], deltas[j]]
  {
    assert j in Changed(deltas);
    ChangedSnoc(deltas);
    var front, n := deltas[..|deltas| - 1], |deltas| - 1;
    if n == j {
      assert Changed(front) == Changed(deltas) - {n} == {i};
      NonZeroOne(front, i);
    } else {
      assert n !in Changed(deltas);
      NonZeroPair(front, i, j);
    }
  }

  /** Other than two accounts change: the complaint gives their number. */
  lemma NotTwoChanges(slot: u64, signature: string, programId: string, deltas: seq<TokenBalanceDelta>)
    ensures |Changed(deltas)| != 2 <==> InferSwap(slot, signature, programId, deltas)
                                          == Err(AmbiguousSwap(NotTwoNonZero(|Changed(deltas)|)))
  {
    NonZeroCount(deltas);
  }

  /** Exactly two accounts change: same direction, same mint, or a swap. */
  lemma TwoChanges(slot: u64, signature: string, programId: string, deltas: seq<TokenBalanceDelta>, i: nat, j: nat)
    requires i < j < |deltas| && Changed(deltas) == {i, j}
    ensures var r, a, b := InferSwap(slot, signature, programId, deltas), deltas[i], deltas[j];
            && (r == Err(AmbiguousSwap(NoCleanPair)) <==> (Delta(a) > 0 <==> Delta(b) > 0))
            && (r == Err(AmbiguousSwap(SameMint)) <==> (Delta(a) > 0 <==> Delta(b) < 0) && a.mint == b.mint)
            && (r.Ok? <==> (Delta(a) > 0 <==> Delta(b) < 0) && a.mint != b.mint)
  {
    NonZeroPair(deltas, i, j);
    assert i in Changed(deltas) && j in Changed(deltas);
  }

  /** The two amounts need not match: any two positive ones make a swap. */
  lemma AmountsMayDiffer(slot: u64, signature: string, programId: string, a: string, b: string, mintIn: string,
                         mintOut: string, x: i64, y: i64)
    requires mintIn != mintOut && x > 0 && y > 0
    ensures InferSwap(slot, signature, programId,
                      [TokenBalanceDelta(a, mintIn, x, 0), TokenBalanceDelta(b, mintOut, 0, y)])
         == Ok(DexSwap(slot, signature, programId, mintIn, x, mintOut, y))
  {
    var giver, taker := TokenBalanceDelta(a, mintIn, x, 0), TokenBalanceDelta(b, mintOut, 0, y);
    assert [giver, taker][1..] == [taker] && [taker][1..] == [];
    assert NonZero([taker]) == [taker] && NonZero([giver, taker]) == [giver, taker];
  }

  /** For balances that are not negative nothing overflows, and both amounts are the plain differences. */
  lemma BalancesAreExact(slot: u64, signature: string, programId: string, deltas: seq<TokenBalanceDelta>)
    requires forall d | d in deltas :: d.preAmount >= 0 && d.postAmount >= 0
    ensures forall d | d in deltas :: Delta(d) == d.preAmount - d.postAmount
    ensures InferSwap(slot, signature, programId, deltas).Ok? ==>
              var swap := InferSwap(slot, signature, programId, deltas).value;
              && 0 < swap.tokenInAmount <= MAX_I64 && 0 < swap.tokenOutAmount <= MAX_I64
              && (exists giver, taker ::
                    && giver in deltas && taker in deltas && swap.tokenIn == giver.mint && swap.tokenOut == taker.mint
                    && swap.tokenInAmount == giver.preAmount - giver.postAmount
                    && swap.tokenOutAmount == taker.postAmount - taker.preAmount)
  {
    if InferSwap(slot, signature, programId, deltas).Ok? {
      var giver, taker := SwapHasCleanPair(slot, signature, programId, deltas);
      CleanPairDecides(slot, signature, programId, deltas, giver, taker);
      assert giver in multiset(NonZero(deltas)) && taker in multiset(NonZero(deltas));
      NonZeroCounts(deltas, giver);
      NonZeroCounts(deltas, taker);
      assert giver in multiset(deltas) && taker in multiset(deltas);
    }
  }
}
