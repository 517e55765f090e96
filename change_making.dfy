/**
 * Change-making of `main.py`: the exact backtracking search
 * `App._calculate_change`, the greedy fallback inside `App.show_change`, and
 * `show_change`'s choice between them.
 *
 * A decomposition of `amount` over a denomination list `ds` is a list of
 * counts `cs`, one per denomination, with `Value(ds, cs) == amount`; the
 * pieces handed out are `Expand(ds, cs)`, the denominations repeated in list
 * order.
 */
module ChangeMaking {

  import opened Catalog

  function Sum(s: seq<int>): int
  {
    if s == [] then 0 else s[0] + Sum(s[1..])
  }

  lemma {:induction false} SumConcat(a: seq<int>, b: seq<int>)
    ensures Sum(a + b) == Sum(a) + Sum(b)
  {
    if a == [] {
      assert a + b == b;
    } else {
      assert (a + b)[1..] == a[1..] + b;
      SumConcat(a[1..], b);
    }
  }

  /** `[d] * n` */
  function Repeat(d: int, n: nat): (r: seq<int>)
    ensures |r| == n && forall i | 0 <= i < n :: r[i] == d
  {
    seq(n, _ => d)
  }

  lemma {:induction false} SumRepeat(d: int, n: nat)
    ensures Sum(Repeat(d, n)) == d * n
  {
    if n > 0 {
      assert Repeat(d, n)[1..] == Repeat(d, n - 1);
      SumRepeat(d, n - 1);
    }
  }

  predicate Positive(ds: seq<int>)
  {
    forall i | 0 <= i < |ds| :: ds[i] > 0
  }

  /** Sorted largest first, as `sorted(..., reverse=True)` leaves the list. */
  predicate NonIncreasing(s: seq<int>)
  {
    forall i, j | 0 <= i < j < |s| :: s[i] >= s[j]
  }

  /** The amount that `cs[i]` copies of each `ds[i]` make up. */
  function Value(ds: seq<int>, cs: seq<nat>): int
    requires |cs| == |ds|
  {
    if ds == [] then 0 else ds[0] * cs[0] + Value(ds[1..], cs[1..])
  }

  /** The pieces of a decomposition, grouped in denomination order. */
  function Expand(ds: seq<int>, cs: seq<nat>): seq<int>
    requires |cs| == |ds|
  {
    if ds == [] then [] else Repeat(ds[0], cs[0]) + Expand(ds[1..], cs[1..])
  }

  lemma {:induction false} ExpandSum(ds: seq<int>, cs: seq<nat>)
    requires |cs| == |ds|
    ensures Sum(Expand(ds, cs)) == Value(ds, cs)
  {
    if ds != [] {
      SumConcat(Repeat(ds[0], cs[0]), Expand(ds[1..], cs[1..]));
      SumRepeat(ds[0], cs[0]);
      ExpandSum(ds[1..], cs[1..]);
    }
  }

  lemma {:induction false} ValueNonNegative(ds: seq<int>, cs: seq<nat>)
    requires |cs| == |ds| && Positive(ds)
    ensures Value(ds, cs) >= 0
  {
    if ds != [] {
      ValueNonNegative(ds[1..], cs[1..]);
    }
  }

  lemma {:induction false} ValueSnoc(ds: seq<int>, cs: seq<nat>, d: int, n: nat)
    requires |cs| == |ds|
    ensures Value(ds + [d], cs + [n]) == Value(ds, cs) + d * n
  {
    if ds == [] {
      assert (ds + [d])[1..] == [];
    } else {
      assert (ds + [d])[1..] == ds[1..] + [d];
      assert (cs + [n])[1..] == cs[1..] + [n];
      ValueSnoc(ds[1..], cs[1..], d, n);
    }
  }

  predicate IsDecomposition(ds: seq<int>, cs: seq<nat>, amount: int)
  {
    |cs| == |ds| && Value(ds, cs) == amount
  }

  /** Lexicographic order on count lists of the same length. */
  predicate LexLeq(a: seq<nat>, b: seq<nat>)
    requires |a| == |b|
  {
    a == [] || a[0] < b[0] || (a[0] == b[0] && LexLeq(a[1..], b[1..]))
  }

  /** `amount - count * current_denom` */
  function Remainder(amount: int, d: int, count: int): int
  {
    amount - count * d
  }

  /** `App._calculate_change(amount, denominations)`: `None` is Python's `None`. */
  function CalculateChange(amount: int, ds: seq<int>): (r: Option<seq<int>>)
    requires Positive(ds)
    ensures r.Some? ==> Sum(r.value) == amount
    ensures r.Some? ==> forall i | 0 <= i < |r.value| :: r.value[i] in ds
    decreases |ds|, 1, 0
  {
    if amount == 0 then Some([])
    else if ds == [] then None
    else TryCounts(amount, ds, amount / ds[0])
  }

  /** The loop `for count in range(max_count, -1, -1)` of `_calculate_change`,
      started at `count`: the first count, going down, whose remainder the
      smaller denominations can pay exactly. */
  function TryCounts(amount: int, ds: seq<int>, count: int): (r: Option<seq<int>>)
    requires Positive(ds) && ds != []
    ensures r.Some? ==> Sum(r.value) == amount
    ensures r.Some? ==> forall i | 0 <= i < |r.value| :: r.value[i] in ds
    decreases |ds|, 0, if count < 0 then 0 else count + 1
  {
    if count < 0 then None
    else
      match CalculateChange(Remainder(amount, ds[0], count), ds[1..])
      case Some(rest) =>
        SumConcat(Repeat(ds[0], count), rest);
        SumRepeat(ds[0], count);
        Some(Repeat(ds[0], count) + rest)
      case None => TryCounts(amount, ds, count - 1)
  }

  /** The two base cases of `_calculate_change`, and a negative amount, which
      leaves `range(max_count, -1, -1)` empty. */
  lemma CalculateChangeBaseCases(amount: int, ds: seq<int>)
    requires Positive(ds)
    ensures amount == 0 ==> CalculateChange(amount, ds) == Some([])
    ensures amount > 0 && ds == [] ==> CalculateChange(amount, ds) == None
    ensures amount < 0 ==> CalculateChange(amount, ds) == None
  {
  }

  /** `c * d <= a` bounds the count by `a // d`. */
  lemma DivBound(a: int, d: int, c: nat)
    requires d > 0 && c * d <= a
    ensures c <= a / d
  {
    var q, r := a / d, a % d;
    assert a == q * d + r && r < d;
    var e := c - q - 1;
    assert c * d == q * d + d + e * d;
    if e >= 0 {
      MulNonNegative(e, d);
    }
  }

  lemma MulNonNegative(x: int, y: int)
    requires x >= 0 && y >= 0
    ensures x * y >= 0
  {
  }

  /** Counting down from `count`, the loop reaches any count `c <= count`
      whose remainder is payable, so it cannot fail. */
  lemma {:induction false} TryCountsReaches(amount: int, ds: seq<int>, count: int, c: nat)
    requires Positive(ds) && ds != []
    requires c <= count
    requires CalculateChange(Remainder(amount, ds[0], c), ds[1..]).Some?
    ensures TryCounts(amount, ds, count).Some?
    decreases count
  {
    if count != c && CalculateChange(Remainder(amount, ds[0], count), ds[1..]).None? {
      TryCountsReaches(amount, ds, count - 1, c);
    }
  }

  /** Completeness: whenever an exact decomposition over `ds` exists,
      `_calculate_change` finds one. */
  lemma {:induction false} ChangeComplete(amount: int, ds: seq<int>, cs: seq<nat>)
    requires Positive(ds) && IsDecomposition(ds, cs, amount)
    ensures CalculateChange(amount, ds).Some?
    decreases |ds|
  {
    if amount != 0 {
      assert ds != [];
      ValueNonNegative(ds[1..], cs[1..]);
      DivBound(amount, ds[0], cs[0]);
      ChangeComplete(Remainder(amount, ds[0], cs[0]), ds[1..], cs[1..]);
      TryCountsReaches(amount, ds, amount / ds[0], cs[0]);
    }
  }

  /** What the count-down loop returns: `count` copies of the current
      denomination for the largest `k <= count` whose remainder is payable,
      followed by the search's answer for that remainder. */
  lemma {:induction false} TryCountsShape(amount: int, ds: seq<int>, count: int) returns (k: nat)
    requires Positive(ds) && ds != []
    requires TryCounts(amount, ds, count).Some?
    ensures k <= count
    ensures CalculateChange(Remainder(amount, ds[0], k), ds[1..]).Some?
    ensures TryCounts(amount, ds, count).value
            == Repeat(ds[0], k) + CalculateChange(Remainder(amount, ds[0], k), ds[1..]).value
    ensures forall j | k < j <= count :: CalculateChange(Remainder(amount, ds[0], j), ds[1..]).None?
    decreases count
  {
    assert count >= 0;
    var r := CalculateChange(Remainder(amount, ds[0], count), ds[1..]);
    if r.Some? {
      k := count;
    } else {
      k := TryCountsShape(amount, ds, count - 1);
      forall j | k < j <= count ensures CalculateChange(Remainder(amount, ds[0], j), ds[1..]).None? {
        if j == count {
          assert r.None?;
        }
      }
    }
  }

  /** Any result of `_calculate_change` is the expansion of an exact
      decomposition whose counts are the lexicographically greatest among all
      exact decompositions: the first denomination is used as often as
      possible, then the next, and so on. */
  lemma {:induction false} ChangeShape(amount: int, ds: seq<int>) returns (cs: seq<nat>)
    requires Positive(ds) && CalculateChange(amount, ds).Some?
    ensures IsDecomposition(ds, cs, amount)
    ensures CalculateChange(amount, ds).value == Expand(ds, cs)
    ensures forall other: seq<nat> | IsDecomposition(ds, other, amount) :: LexLeq(other, cs)
    decreases |ds|
  {
    if ds == [] {
      cs := [];
    } else if amount == 0 {
      cs := ZeroShape(ds);
    } else {
      var k := TryCountsShape(amount, ds, amount / ds[0]);
      var restCs := ChangeShape(Remainder(amount, ds[0], k), ds[1..]);
      cs := ShapeCons(amount, ds, k, restCs);
    }
  }

  /** The all-zero counts are the only, hence the greatest, decomposition of 0. */
  lemma ZeroShape(ds: seq<int>) returns (cs: seq<nat>)
    requires Positive(ds)
    ensures IsDecomposition(ds, cs, 0) && Expand(ds, cs) == []
    ensures forall other: seq<nat> | IsDecomposition(ds, other, 0) :: LexLeq(other, cs)
  {
    cs := seq(|ds|, _ => 0);
    ZeroCounts(ds, cs);
    forall other: seq<nat> | IsDecomposition(ds, other, 0) ensures LexLeq(other, cs) {
      ZeroIsOnlyDecompositionOfZero(ds, other);
      assert other == cs;
      LexLeqRefl(other);
    }
  }

  /** Prefixing the maximal count `k` of the first denomination to the
      greatest decomposition of the remainder gives the greatest decomposition
      of the whole amount. */
  lemma ShapeCons(amount: int, ds: seq<int>, k: nat, restCs: seq<nat>) returns (cs: seq<nat>)
    requires Positive(ds) && ds != []
    requires forall j | k < j <= amount / ds[0] :: CalculateChange(Remainder(amount, ds[0], j), ds[1..]).None?
    requires IsDecomposition(ds[1..], restCs, Remainder(amount, ds[0], k))
    requires forall other: seq<nat> | IsDecomposition(ds[1..], other, Remainder(amount, ds[0], k))
               :: LexLeq(other, restCs)
    ensures cs == [k] + restCs
    ensures IsDecomposition(ds, cs, amount)
    ensures Expand(ds, cs) == Repeat(ds[0], k) + Expand(ds[1..], restCs)
    ensures forall other: seq<nat> | IsDecomposition(ds, other, amount) :: LexLeq(other, cs)
  {
    cs := [k] + restCs;
    assert cs[0] == k && cs[1..] == restCs;
    forall other: seq<nat> | IsDecomposition(ds, other, amount) ensures LexLeq(other, cs) {
      FirstCountMaximal(amount, ds, k, other);
      if other[0] == k {
        assert LexLeq(other[1..], restCs);
      }
    }
  }

  /** The step of ChangeShape: an exact decomposition cannot use the first
      denomination more often than the count-down loop settled on, and if it
      uses it as often, the rest decomposes the same remainder. */
  lemma FirstCountMaximal(amount: int, ds: seq<int>, k: nat, other: seq<nat>)
    requires Positive(ds) && ds != [] && IsDecomposition(ds, other, amount)
    requires forall j | k < j <= amount / ds[0] :: CalculateChange(Remainder(amount, ds[0], j), ds[1..]).None?
    ensures other[0] <= k
    ensures other[0] == k ==> IsDecomposition(ds[1..], other[1..], Remainder(amount, ds[0], k))
  {
    ValueNonNegative(ds[1..], other[1..]);
    DivBound(amount, ds[0], other[0]);
    ChangeComplete(Remainder(amount, ds[0], other[0]), ds[1..], other[1..]);
  }

  lemma ZeroCounts(ds: seq<int>, cs: seq<nat>)
    requires |cs| == |ds| && forall i | 0 <= i < |cs| :: cs[i] == 0
    ensures Value(ds, cs) == 0 && Expand(ds, cs) == []
    decreases |ds|
  {
    if ds != [] {
      ZeroCounts(ds[1..], cs[1..]);
    }
  }

  /** With positive denominations, 0 has only the all-zero decomposition. */
  lemma {:induction false} ZeroIsOnlyDecompositionOfZero(ds: seq<int>, cs: seq<nat>)
    requires Positive(ds) && IsDecomposition(ds, cs, 0)
    ensures forall i | 0 <= i < |cs| :: cs[i] == 0
    decreases |ds|
  {
    if ds != [] {
      ValueNonNegative(ds[1..], cs[1..]);
      ZeroIsOnlyDecompositionOfZero(ds[1..], cs[1..]);
      forall i | 0 <= i < |cs| ensures cs[i] == 0 {
        if i > 0 { assert cs[i] == cs[1..][i - 1]; }
      }
    }
  }

  lemma {:induction false} LexLeqRefl(a: seq<nat>)
    ensures LexLeq(a, a)
  {
    if a != [] {
      LexLeqRefl(a[1..]);
    }
  }

  /** `_calculate_change` returns `None` exactly when no exact decomposition
      over the denominations exists. */
  lemma ChangeNoneIffUnpayable(amount: int, ds: seq<int>)
    requires Positive(ds)
    ensures CalculateChange(amount, ds).None?
            <==> forall cs: seq<nat> | |cs| == |ds| :: Value(ds, cs) != amount
  {
    if CalculateChange(amount, ds).Some? {
      var cs := ChangeShape(amount, ds);
    } else {
      forall cs: seq<nat> | |cs| == |ds| ensures Value(ds, cs) != amount {
        if Value(ds, cs) == amount {
          ChangeComplete(amount, ds, cs);
        }
      }
    }
  }

  /** Each denomination is used at most `amount // d` times in a decomposition. */
  lemma {:induction false} CountsBounded(ds: seq<int>, cs: seq<nat>, amount: int, i: nat)
    requires Positive(ds) && IsDecomposition(ds, cs, amount) && i < |ds|
    ensures cs[i] <= amount / ds[i]
    decreases |ds|
  {
    ValueNonNegative(ds[1..], cs[1..]);
    if i == 0 {
      DivBound(amount, ds[0], cs[0]);
    } else {
      CountsBounded(ds[1..], cs[1..], Value(ds[1..], cs[1..]), i - 1);
      assert ds[0] * cs[0] >= 0;
      DivMonotone(Value(ds[1..], cs[1..]), amount, ds[i]);
    }
  }

  lemma DivMonotone(a: int, b: int, d: int)
    requires 0 <= a <= b && d > 0
    ensures a / d <= b / d
  {
    var qa, qb := a / d, b / d;
    assert a == qa * d + a % d && 0 <= a % d;
    assert b == qb * d + b % d && b % d < d;
    var e := qa - qb - 1;
    assert qa * d == qb * d + d + e * d;
    if e >= 0 {
      MulNonNegative(e, d);
    }
  }

  /** How many copies of `d` the loop `while temp >= d: temp -= d` takes
      away: the largest count whose total still fits into `temp`. */
  function Fits(temp: int, d: int): (n: nat)
    requires d > 0
    ensures temp < d ==> n == 0
    ensures temp >= 0 ==> d * n <= temp < d * (n + 1)
  {
    if temp < d then 0 else assert temp == d * (temp / d) + temp % d; temp / d
  }

  /** `q` is the quotient once `a - d*q` is a remainder. */
  lemma DivUnique(a: int, d: int, q: int)
    requires d > 0 && 0 <= a - d * q < d
    ensures q == a / d
  {
    var k := a / d - q;
    assert a == d * (a / d) + a % d && 0 <= a % d < d;
    assert d * k == d * (a / d) - d * q;
    SignOfProduct(d, k - 1);
    SignOfProduct(d, k + 1);
  }

  /** A positive factor keeps the sign of the other. */
  lemma SignOfProduct(d: int, k: int)
    requires d > 0
    ensures (k >= 0 <==> d * k >= 0) && (k <= 0 <==> d * k <= 0)
  {
    if k >= 0 {
      MulNonNegative(d, k);
    } else {
      MulNonNegative(d, -k);
    }
  }

  /** The greedy change of `amount` over `ds` taken in order: as many
      of each denomination as fit, then the rest from the following ones.
      The pair is the notes and what is left over. */
  function GreedyChange(amount: int, ds: seq<int>): (r: (seq<int>, int))
    requires Positive(ds)
    decreases |ds|
  {
    if ds == [] then ([], amount)
    else
      var n := Fits(amount, ds[0]);
      var rest := GreedyChange(amount - ds[0] * n, ds[1..]);
      (Repeat(ds[0], n) + rest.0, rest.1)
  }

  /** Unfolding `GreedyChange` on a suffix of the denominations. */
  lemma GreedyChangeUnfold(amount: int, ds: seq<int>, i: nat, n: nat, amount': int)
    requires Positive(ds) && i < |ds| && n == Fits(amount, ds[i]) && amount' == amount - ds[i] * n
    ensures Positive(ds[i..]) && Positive(ds[i + 1..])
    ensures GreedyChange(amount, ds[i..]).0 == Repeat(ds[i], n) + GreedyChange(amount', ds[i + 1..]).0
    ensures GreedyChange(amount, ds[i..]).1 == GreedyChange(amount', ds[i + 1..]).1
  {
    assert ds[i..][0] == ds[i] && ds[i..][1..] == ds[i + 1..];
  }

  /** The greedy change starts with the first denomination whenever it
      fits: with the notes sorted largest first, the largest note is taken. */
  lemma GreedyTakesFirstThatFits(amount: int, ds: seq<int>)
    requires Positive(ds) && ds != [] && amount >= ds[0]
    ensures GreedyChange(amount, ds).0 != [] && GreedyChange(amount, ds).0[0] == ds[0]
  {
    var n := Fits(amount, ds[0]);
    assert n >= 1;
    GreedyChangeUnfold(amount, ds, 0, n, amount - ds[0] * n);
    assert ds[0..] == ds;
  }

  /** The inner loop of the greedy fallback: `while temp_amount >= d:
      append d; temp_amount -= d`. `n` (ghost) is how often it ran. */
  method AppendWhileFits(pieces: seq<int>, d: int, temp: int)
    returns (pieces': seq<int>, temp': int, ghost n: nat)
    requires d > 0
    ensures n == Fits(temp, d)
    ensures pieces' == pieces + Repeat(d, n) && temp' == temp - d * n
    ensures temp' < d && (temp >= 0 ==> temp' >= 0)
  {
    pieces', temp', n := pieces, temp, 0;
    while temp' >= d
      invariant pieces' == pieces + Repeat(d, n) && temp' == temp - d * n
      invariant temp >= 0 ==> temp' >= 0
      invariant temp < d ==> n == 0
      decreases temp'
    {
      assert Repeat(d, n) + [d] == Repeat(d, n + 1);
      pieces' := pieces' + [d];
      temp' := temp' - d;
      n := n + 1;
    }
    if temp >= d {
      DivUnique(temp, d, n);
    }
  }

  lemma AppendRepeatNonIncreasing(p: seq<int>, d: int, n: nat)
    requires NonIncreasing(p) && forall j | 0 <= j < |p| :: p[j] >= d
    ensures NonIncreasing(p + Repeat(d, n))
  {
  }

  /** What the greedy loop has established after the first `i`
      denominations. */
  ghost predicate GreedyInv(amount: int, ds: seq<int>, i: nat, pieces: seq<int>, leftover: int, counts: seq<nat>)
  {
    && i <= |ds| && |counts| == i
    && Value(ds[..i], counts) == amount - leftover
    && Sum(pieces) + leftover == amount
    && (amount >= 0 ==> leftover >= 0)
    && (forall j | 0 <= j < i :: leftover < ds[j])
    && (forall j | 0 <= j < |pieces| :: pieces[j] in ds[..i])
    && (NonIncreasing(ds) ==> NonIncreasing(pieces))
    && ((forall j | 0 <= j < |ds| :: amount < ds[j]) ==> pieces == [] && leftover == amount)
  }

  /** One round of the outer greedy loop keeps GreedyInv. */
  lemma GreedyStep(amount: int, ds: seq<int>, i: nat, pieces: seq<int>, leftover: int, counts: seq<nat>,
                   n: nat, leftover': int)
    requires Positive(ds) && i < |ds| && GreedyInv(amount, ds, i, pieces, leftover, counts)
    requires leftover' == leftover - ds[i] * n && leftover' < ds[i]
    requires (leftover >= 0 ==> leftover' >= 0) && (leftover < ds[i] ==> n == 0)
    ensures GreedyInv(amount, ds, i + 1, pieces + Repeat(ds[i], n), leftover', counts + [n])
  {
    var d := ds[i];
    var pieces' := pieces + Repeat(d, n);
    SumConcat(pieces, Repeat(d, n));
    SumRepeat(d, n);
    MulNonNegative(d, n);
    if NonIncreasing(ds) {
      AppendRepeatNonIncreasing(pieces, d, n);
    }
    assert ds[..i + 1] == ds[..i] + [d];
    assert forall j | 0 <= j < |pieces'| :: pieces'[j] in ds[..i + 1] by {
      forall j | 0 <= j < |pieces'| ensures pieces'[j] in ds[..i + 1] {
        if j < |pieces| { assert pieces'[j] == pieces[j]; } else { assert pieces'[j] == ds[..i + 1][i]; }
      }
    }
    ValueSnoc(ds[..i], counts, d, n);
    if forall j | 0 <= j < |ds| :: amount < ds[j] {
      assert n == 0 && Repeat(d, n) == [];
      assert pieces' == pieces;
    }
  }

  /** What the greedy loop has left to do after the first `i` denominations
      is `GreedyChange` on the rest of them. */
  ghost predicate GreedyRest(amount: int, ds: seq<int>, i: nat, pieces: seq<int>, leftover: int)
    requires Positive(ds) && i <= |ds|
  {
    var rest := GreedyChange(leftover, ds[i..]);
    GreedyChange(amount, ds).0 == pieces + rest.0 && GreedyChange(amount, ds).1 == rest.1
  }

  lemma GreedyRestStep(amount: int, ds: seq<int>, i: nat, pieces: seq<int>, leftover: int, n: nat, leftover': int)
    requires Positive(ds) && i < |ds| && GreedyRest(amount, ds, i, pieces, leftover)
    requires n == Fits(leftover, ds[i]) && leftover' == leftover - ds[i] * n
    ensures GreedyRest(amount, ds, i + 1, pieces + Repeat(ds[i], n), leftover')
  {
    GreedyChangeUnfold(leftover, ds, i, n, leftover');
    var rest := GreedyChange(leftover', ds[i + 1..]).0;
    assert pieces + (Repeat(ds[i], n) + rest) == (pieces + Repeat(ds[i], n)) + rest;
  }

  lemma GreedyRestEnds(amount: int, ds: seq<int>, pieces: seq<int>, leftover: int)
    requires Positive(ds)
    ensures GreedyRest(amount, ds, 0, [], amount)
    ensures GreedyRest(amount, ds, |ds|, pieces, leftover) ==> (pieces, leftover) == GreedyChange(amount, ds)
  {
    assert ds[0..] == ds && ds[|ds|..] == [];
    assert [] + GreedyChange(amount, ds).0 == GreedyChange(amount, ds).0;
    assert pieces + GreedyChange(leftover, []).0 == pieces;
  }

  /** The greedy fallback of `show_change`:
      `for d in denominations: while temp_amount >= d: ...`.
      `leftover` is what is left of `temp_amount`; `counts` (ghost) records
      how often each denomination was appended. */
  method Greedy(amount: int, ds: seq<int>) returns (pieces: seq<int>, leftover: int, ghost counts: seq<nat>)
    requires Positive(ds)
    ensures Sum(pieces) + leftover == amount
    ensures amount >= 0 ==> leftover >= 0
    ensures forall i | 0 <= i < |ds| :: leftover < ds[i]
    ensures forall i | 0 <= i < |pieces| :: pieces[i] in ds
    ensures NonIncreasing(ds) ==> NonIncreasing(pieces)
    ensures |counts| == |ds| && Value(ds, counts) == amount - leftover
    ensures (forall i | 0 <= i < |ds| :: amount < ds[i]) ==> pieces == [] && leftover == amount
    ensures (pieces, leftover) == GreedyChange(amount, ds)
  {
    pieces, leftover, counts := [], amount, [];
    GreedyRestEnds(amount, ds, pieces, leftover);
    for i := 0 to |ds|
      invariant GreedyInv(amount, ds, i, pieces, leftover, counts)
      invariant GreedyRest(amount, ds, i, pieces, leftover)
    {
      ghost var before, left, n := pieces, leftover, 0;
      pieces, leftover, n := AppendWhileFits(pieces, ds[i], leftover);
      GreedyStep(amount, ds, i, before, left, counts, n, leftover);
      GreedyRestStep(amount, ds, i, before, left, n, leftover);
      counts := counts + [n];
    }
    assert ds[..|ds|] == ds;
    GreedyRestEnds(amount, ds, pieces, leftover);
  }

  /** The keys of `money_images` in `main.py`. */
  const MoneyImageKeys: seq<int> := [2000, 5000, 10000, 20000]

  /** `sorted(money_images.keys(), reverse=True)` */
  const SortedDenominations: seq<int> := [20000, 10000, 5000, 2000]

  lemma SortedDenominationsSorted()
    ensures multiset(SortedDenominations) == multiset(MoneyImageKeys)
    ensures NonIncreasing(SortedDenominations) && Positive(SortedDenominations)
  {
    SameNotes();
  }

  /** The sorted list holds the notes, the smallest last. */
  lemma SortedDenominationsAreNotes()
    ensures |SortedDenominations| == 4 && SortedDenominations[3] == 2000
    ensures forall i | 0 <= i < |SortedDenominations| :: SortedDenominations[i] in Notes && SortedDenominations[i] >= 2000
  {
  }

  lemma SameNotes()
    ensures multiset(SortedDenominations) == multiset{2000, 5000, 10000, 20000} == multiset(MoneyImageKeys)
  {
    assert SortedDenominations == [20000, 10000, 5000, 2000];
    assert MoneyImageKeys == [2000, 5000, 10000, 20000];
  }

  /** What `show_change` displays for a `change_to_return`. */
  datatype ChangeDisplay =
    | NothingShown
    | ExactChange(bills: seq<int>)
    | ShortChange(bills: seq<int>, shortfall: int)

  /** `App.show_change`: nothing for `amount <= 0`; otherwise the exact
      search over the sorted notes, and the greedy loop with a warning when it
      fails. `shortfall` is the greedy loop's `temp_amount` at the end; the
      source drops it silently. */
  method ShowChange(amount: int) returns (shown: ChangeDisplay)
    ensures shown == NothingShown <==> amount <= 0
    ensures shown.ExactChange? <==> amount > 0 && CalculateChange(amount, SortedDenominations).Some?
    ensures shown.ExactChange? ==> shown.bills == CalculateChange(amount, SortedDenominations).value
    ensures shown.ExactChange? ==> Sum(shown.bills) == amount
    ensures shown.ShortChange? ==> Sum(shown.bills) + shown.shortfall == amount
    ensures shown.ShortChange? ==> 0 < shown.shortfall < 2000
    ensures !shown.NothingShown? ==> forall i | 0 <= i < |shown.bills| :: shown.bills[i] in SortedDenominations
    ensures shown.ShortChange? ==> NonIncreasing(shown.bills)
    ensures shown.ShortChange? ==> (shown.bills, shown.shortfall) == GreedyChange(amount, SortedDenominations)
  {
    if amount <= 0 {
      return NothingShown;
    }
    SortedDenominationsSorted();
    var exact := CalculateChange(amount, SortedDenominations);
    if exact.Some? {
      shown := ExactChange(exact.value);
    } else {
      var pieces, left, counts := Greedy(amount, SortedDenominations);
      if left == 0 {
        ChangeComplete(amount, SortedDenominations, counts);
      }
      shown := ShortChange(pieces, left);
    }
  }
}
