/** Splitting an integer total over weights by largest remainder (worker/app/jobs.py). */
module LargestRemainder {
  import opened Outcomes
  import opened Sums
  import opened Sorting

  datatype AllocationError = NegativeInput

  function Indices(n: nat): seq<int> {
    seq(n, i => i)
  }

  function Bases(total: nat, weights: seq<nat>, weightSum: nat): seq<int>
    requires weightSum > 0
  {
    seq(|weights|, i requires 0 <= i < |weights| => total * weights[i] / weightSum)
  }

  function Remainders(total: nat, weights: seq<nat>, weightSum: nat): seq<int>
    requires weightSum > 0
  {
    seq(|weights|, i requires 0 <= i < |weights| => total * weights[i] % weightSum)
  }

  function At(s: seq<int>, i: int): int {
    if 0 <= i < |s| then s[i] else 0
  }

  function Value(s: seq<int>): int -> int {
    i => At(s, i)
  }

  /** The sort key: larger remainders first, ties to the smaller index. */
  function RankLeq(remainders: seq<int>): (int, int) -> bool {
    (i, j) =>
      At(remainders, i) > At(remainders, j) || (At(remainders, i) == At(remainders, j) && i <= j)
  }

  /** The positions below n in the given order. */
  function Ranked(n: nat, leq: (int, int) -> bool): seq<int> {
    Sort(Indices(n), leq)
  }

  function Ranking(remainders: seq<int>): seq<int> {
    Ranked(|remainders|, RankLeq(remainders))
  }

  predicate Within(picks: seq<int>, n: nat) {
    forall k :: 0 <= k < |picks| ==> 0 <= picks[k] < n
  }

  /** Adds one to every listed position, in turn. */
  function Bump(bases: seq<int>, picks: seq<int>): (r: seq<int>)
    requires Within(picks, |bases|)
    ensures |r| == |bases|
    decreases |picks|
  {
    if picks == [] then bases else Bump(bases[picks[0] := bases[picks[0]] + 1], picks[1..])
  }

  /** Every share is its base or one more, and extra units go to the best ranked positions first. */
  ghost predicate RankedUnits(bases: seq<int>, remainders: seq<int>, shares: seq<int>)
    requires |bases| == |remainders|
  {
    && |shares| == |bases|
    && (forall i :: 0 <= i < |shares| ==> shares[i] == bases[i] || shares[i] == bases[i] + 1)
    && (forall i, j {:trigger shares[i], shares[j]} ::
          0 <= i < |shares| && 0 <= j < |shares| && RankLeq(remainders)(i, j) && shares[j] == bases[j] + 1
          ==> shares[i] == bases[i] + 1)
  }

  /** What the allocation means when the weights have a positive sum. */
  ghost predicate IsLargestRemainder(total: nat, weights: seq<nat>, shares: seq<int>)
    requires Sum(weights) > 0
  {
    && Sum(shares) == total
    && RankedUnits(Bases(total, weights, Sum(weights)), Remainders(total, weights, Sum(weights)), shares)
  }

  /** The allocation as a value: all to the first position when nothing is weighted. */
  function Shares(total: nat, weights: seq<nat>): (shares: seq<int>)
    ensures |shares| == |weights|
  {
    SumNonNegative(weights);
    if weights == [] then []
    else if Sum(weights) == 0 then [total] + seq(|weights| - 1, _ => 0)
    else
      var bases := Bases(total, weights, Sum(weights));
      var order := Ranking(Remainders(total, weights, Sum(weights)));
      LeftoverBounds(total, weights);
      RankingIsPermutation(Remainders(total, weights, Sum(weights)));
      Bump(bases, order[..total - Sum(bases)])
  }

  method AllocateIntegerTotal(total: int, weights: seq<int>) returns (r: Result<seq<int>, AllocationError>)
    ensures r.Err? <==> total < 0 || exists i :: 0 <= i < |weights| && weights[i] < 0
    ensures r.Ok? ==> r.value == Shares(total, weights)
  {
    if total < 0 || exists i :: 0 <= i < |weights| && weights[i] < 0 {
      return Err(NegativeInput);
    }
    var weightSum := Sum(weights);
    if weights == [] {
      return Ok([]);
    }
    SumNonNegative(weights);
    if weightSum == 0 {
      return Ok([total] + seq(|weights| - 1, _ => 0));
    }
    var bases := Bases(total, weights, weightSum);
    var remainders := Remainders(total, weights, weightSum);
    var order := Ranking(remainders);
    RankingIsPermutation(remainders);
    LeftoverBounds(total, weights);
    var picks := order[..total - Sum(bases)];
    ghost var initial := bases;
    for c := 0 to |picks|
      invariant |bases| == |weights|
      invariant Bump(initial, picks) == Bump(bases, picks[c..])
    {
      assert picks[c..][1..] == picks[c + 1..];
      bases := bases[picks[c] := bases[picks[c]] + 1];
    }
    assert picks[|picks|..] == [];
    r := Ok(bases);
  }

  /** The shares always add up to the total. */
  lemma {:induction false} SharesConserveTotal(total: nat, weights: seq<nat>)
    requires weights != []
    ensures Sum(Shares(total, weights)) == total
    ensures forall i :: 0 <= i < |weights| ==> Shares(total, weights)[i] >= 0
  {
    SumNonNegative(weights);
    if Sum(weights) == 0 {
      var zeros := seq(|weights| - 1, _ => 0);
      SumOfZeros(|weights| - 1);
      assert ([total] + zeros)[1..] == zeros;
    } else {
      SharesAreLargestRemainder(total, weights);
      BasesNonNegative(total, weights, Sum(weights));
    }
  }

  lemma {:induction false} BasesNonNegative(total: nat, weights: seq<nat>, weightSum: nat)
    requires weightSum > 0
    ensures forall i :: 0 <= i < |weights| ==> Bases(total, weights, weightSum)[i] >= 0
  {
    forall i | 0 <= i < |weights| ensures Bases(total, weights, weightSum)[i] >= 0 {
      MulMonotone(total, 0, weights[i]);
      QuotientOrder(total * weights[i], 0, weightSum);
    }
  }

  lemma {:induction false} SharesAreLargestRemainder(total: nat, weights: seq<nat>)
    requires Sum(weights) > 0
    ensures IsLargestRemainder(total, weights, Shares(total, weights))
  {
    var bases, remainders := Bases(total, weights, Sum(weights)), Remainders(total, weights, Sum(weights));
    LeftoverBounds(total, weights);
    RankingIsPermutation(remainders);
    BumpTop(bases, remainders, total - Sum(bases));
  }

  // ----- sums -----

  lemma {:induction false} SumNonNegative(s: seq<int>)
    requires forall i :: 0 <= i < |s| ==> s[i] >= 0
    ensures Sum(s) >= 0
    ensures Sum(s) == 0 ==> forall i :: 0 <= i < |s| ==> s[i] == 0
  {
    if s != [] {
      SumNonNegative(s[1..]);
      assert forall i :: 0 < i < |s| ==> s[i] == s[1..][i - 1];
    }
  }

  lemma {:induction false} SumOfZeros(n: nat)
    ensures Sum(seq(n, _ => 0)) == 0
  {
    if n > 0 {
      assert seq(n, _ => 0)[1..] == seq(n - 1, _ => 0);
      SumOfZeros(n - 1);
    }
  }

  lemma {:induction false} BumpSum(bases: seq<int>, picks: seq<int>)
    requires Within(picks, |bases|)
    ensures Sum(Bump(bases, picks)) == Sum(bases) + |picks|
    decreases |picks|
  {
    if picks != [] {
      SumUpdate(bases, picks[0], bases[picks[0]] + 1);
      BumpSum(bases[picks[0] := bases[picks[0]] + 1], picks[1..]);
    }
  }

  lemma {:induction false} BumpAt(bases: seq<int>, picks: seq<int>, i: nat)
    requires Within(picks, |bases|)
    requires Distinct(picks) && i < |bases|
    ensures Bump(bases, picks)[i] == bases[i] + (if i in picks then 1 else 0)
    decreases |picks|
  {
    if picks != [] {
      BumpAt(bases[picks[0] := bases[picks[0]] + 1], picks[1..], i);
      assert picks == [picks[0]] + picks[1..];
    }
  }

  // ----- the ranking -----

  lemma {:induction false} RankLeqIsTotalOrder(remainders: seq<int>)
    ensures TotalOrder(RankLeq(remainders))
  {
  }

  lemma {:induction false} RankedIsPermutation(n: nat, leq: (int, int) -> bool)
    requires TotalOrder(leq)
    ensures var order := Ranked(n, leq);
            && |order| == n && Distinct(order) && Within(order, n)
            && (forall i :: i in order <==> 0 <= i < n)
            && Sorted(order, leq)
  {
    var order, indices := Ranked(n, leq), Indices(n);
    SortPermutes(indices, leq);
    SortSorts(indices, leq);
    DistinctPermutation(indices, order);
    forall i ensures i in order <==> 0 <= i < n {
      assert i in order <==> i in multiset(order);
      assert i in indices <==> i in multiset(indices);
      if 0 <= i < n { assert indices[i] == i; }
    }
    assert forall k :: 0 <= k < |order| ==> order[k] in order;
  }

  lemma {:induction false} RankingIsPermutation(remainders: seq<int>)
    ensures var order := Ranking(remainders);
            && |order| == |remainders| && Distinct(order) && Within(order, |remainders|)
            && (forall i :: i in order <==> 0 <= i < |remainders|)
            && Sorted(order, RankLeq(remainders))
  {
    RankLeqIsTotalOrder(remainders);
    RankedIsPermutation(|remainders|, RankLeq(remainders));
  }

  // ----- the leftover -----

  /** Whole quotas and remainders together account for the total. */
  lemma {:induction false} QuotaSplit(total: nat, weights: seq<nat>, weightSum: nat)
    requires weightSum > 0
    ensures weightSum * Sum(Bases(total, weights, weightSum)) + Sum(Remainders(total, weights, weightSum)) == total * Sum(weights)
  {
    if weights != [] {
      var bases, remainders := Bases(total, weights, weightSum), Remainders(total, weights, weightSum);
      assert bases[1..] == Bases(total, weights[1..], weightSum);
      assert remainders[1..] == Remainders(total, weights[1..], weightSum);
      QuotaSplit(total, weights[1..], weightSum);
      var product := total * weights[0];
      assert product == weightSum * (product / weightSum) + product % weightSum;
      Distribute(weightSum, bases[0], Sum(bases[1..]));
      Distribute(total, weights[0], Sum(weights[1..]));
    }
  }

  lemma {:induction false} Distribute(a: int, b: int, c: int)
    ensures a * (b + c) == a * b + a * c
  {
  }

  lemma {:induction false} SumUpperBound(s: seq<int>, bound: int)
    requires forall i :: 0 <= i < |s| ==> s[i] <= bound
    ensures Sum(s) <= |s| * bound
  {
    if s != [] {
      SumUpperBound(s[1..], bound);
    }
  }

  function Product(a: int, b: int): int {
    a * b
  }

  lemma {:induction false} MulMonotone(size: nat, a: int, b: int)
    ensures a <= b ==> size * a <= size * b
  {
  }

  lemma {:induction false} LeftoverArithmetic(total: int, size: nat, units: int, rest: int, n: nat)
    requires size * units + rest == total * size
    requires 0 <= rest <= n * (size - 1) && n > 0 && size > 0
    ensures 0 <= total - units < n && Product(size, total - units) == rest
  {
    Distribute(size, units, total - units);
    Distribute(n, size - 1, 1);
    MulMonotone(size, total - units, -1);
    MulMonotone(size, n, total - units);
  }

  /** The number of units left after the whole quotas is a proper count of positions. */
  lemma {:induction false} LeftoverBounds(total: nat, weights: seq<nat>)
    requires Sum(weights) > 0
    ensures var leftover := total - Sum(Bases(total, weights, Sum(weights)));
            && 0 <= leftover < |weights|
            && Product(Sum(weights), leftover) == Sum(Remainders(total, weights, Sum(weights)))
  {
    var size, n := Sum(weights), |weights|;
    var remainders := Remainders(total, weights, size);
    QuotaSplit(total, weights, size);
    RemainderRange(total, weights, size);
    SumNonNegative(remainders);
    SumUpperBound(remainders, size - 1);
    LeftoverArithmetic(total, size, Sum(Bases(total, weights, size)), Sum(remainders), n);
  }

  lemma {:induction false} RemainderRange(total: nat, weights: seq<nat>, weightSum: nat)
    requires weightSum > 0
    ensures forall i :: 0 <= i < |weights| ==> 0 <= Remainders(total, weights, weightSum)[i] < weightSum
  {
  }

  lemma {:induction false} BetterRankIsPicked(remainders: seq<int>, m: nat, i: nat, j: nat)
    requires m <= |Ranking(remainders)| && i < |remainders| && j in Ranking(remainders)[..m] && RankLeq(remainders)(i, j)
    ensures i in Ranking(remainders)[..m]
  {
    var order, leq := Ranking(remainders), RankLeq(remainders);
    RankingIsPermutation(remainders);
    hide Ranking;
    var p :| 0 <= p < m && order[..m][p] == j;
    assert order[p] == j && i in order;
    var q :| 0 <= q < |order| && order[q] == i;
    assert q <= p;
    assert order[..m][q] == i;
  }

  lemma {:induction false} BumpTop(bases: seq<int>, remainders: seq<int>, m: nat)
    requires |bases| == |remainders| && m <= |Ranking(remainders)|
    requires Within(Ranking(remainders), |bases|)
    ensures var shares := Bump(bases, Ranking(remainders)[..m]);
            Sum(shares) == Sum(bases) + m && RankedUnits(bases, remainders, shares)
  {
    var picks := Ranking(remainders)[..m];
    var shares := Bump(bases, picks);
    hide Ranking, Bump, Sum;
    RankingIsPermutation(remainders);
    BumpSum(bases, picks);
    forall i | 0 <= i < |bases| ensures shares[i] == bases[i] + (if i in picks then 1 else 0) {
      BumpAt(bases, picks, i);
    }
    forall i, j | 0 <= i < |shares| && 0 <= j < |shares| && RankLeq(remainders)(i, j) && shares[j] == bases[j] + 1
      ensures shares[i] == bases[i] + 1
    {
      BetterRankIsPicked(remainders, m, i, j);
    }
  }

  lemma {:induction false} TopPositions(remainders: seq<int>, m: nat)
    requires m <= |Ranking(remainders)|
    ensures Distinct(Ranking(remainders)[..m]) && Within(Ranking(remainders)[..m], |remainders|)
  {
    RankingIsPermutation(remainders);
  }

  lemma {:induction false} UnitsStopAt(bases: seq<int>, remainders: seq<int>, shares: seq<int>, m: nat, i: nat)
    requires |bases| == |remainders| && RankedUnits(bases, remainders, shares) && i < |bases|
    requires m <= |Ranking(remainders)| && Within(Ranking(remainders), |bases|)
    requires forall q :: 0 <= q < m ==> shares[Ranking(remainders)[q]] == bases[Ranking(remainders)[q]] + 1
    requires m < |Ranking(remainders)| ==> shares[Ranking(remainders)[m]] == bases[Ranking(remainders)[m]]
    ensures shares[i] == bases[i] + (if i in Ranking(remainders)[..m] then 1 else 0)
  {
    var order, leq := Ranking(remainders), RankLeq(remainders);
    RankingIsPermutation(remainders);
    assert i in order;
    var q :| 0 <= q < |order| && order[q] == i;
    if q < m {
      assert order[..m][q] == i;
    } else {
      assert i !in order[..m];
      assert q == m || leq(order[m], order[q]);
    }
  }

  /** Ranked units are determined by how many there are. */
  lemma {:induction false} RankedUnitsAreTop(bases: seq<int>, remainders: seq<int>, shares: seq<int>)
    requires |bases| == |remainders| && RankedUnits(bases, remainders, shares)
    ensures var order, m := Ranking(remainders), Sum(shares) - Sum(bases);
            && 0 <= m <= |order| && Within(order, |bases|)
            && shares == Bump(bases, order[..m])
  {
    var order := Ranking(remainders);
    RankingIsPermutation(remainders);
    var m := 0;
    while m < |order| && shares[order[m]] == bases[order[m]] + 1
      invariant 0 <= m <= |order|
      invariant forall q :: 0 <= q < m ==> shares[order[q]] == bases[order[q]] + 1
    {
      m := m + 1;
    }
    TopPositions(remainders, m);
    var bumped := Bump(bases, order[..m]);
    forall i | 0 <= i < |shares| ensures shares[i] == bumped[i] {
      UnitsStopAt(bases, remainders, shares, m, i);
      BumpAt(bases, order[..m], i);
    }
    assert shares == bumped;
    BumpSum(bases, order[..m]);
  }

  // ----- what the allocation promises -----

  /** The definition has exactly one solution: the shares the worker computes. */
  lemma {:induction false} LargestRemainderIsUnique(total: nat, weights: seq<nat>, shares: seq<int>)
    requires Sum(weights) > 0
    ensures IsLargestRemainder(total, weights, shares) <==> shares == Shares(total, weights)
  {
    SharesAreLargestRemainder(total, weights);
    if IsLargestRemainder(total, weights, shares) {
      RankedUnitsAreTop(Bases(total, weights, Sum(weights)), Remainders(total, weights, Sum(weights)), shares);
    }
  }

  /** A position whose quota is whole gets exactly its quota; in particular a zero weight gets nothing. */
  lemma {:induction false} WholeQuotasAreExact(total: nat, weights: seq<nat>, shares: seq<int>, i: nat)
    requires Sum(weights) > 0 && IsLargestRemainder(total, weights, shares)
    requires i < |weights| && total * weights[i] % Sum(weights) == 0
    ensures shares[i] == total * weights[i] / Sum(weights)
  {
    var bases, remainders := Bases(total, weights, Sum(weights)), Remainders(total, weights, Sum(weights));
    var order, leftover := Ranking(remainders), total - Sum(bases);
    RankedUnitsAreTop(bases, remainders, shares);
    RankingIsPermutation(remainders);
    LeftoverBounds(total, weights);
    BumpAt(bases, order[..leftover], i);
    if i in order[..leftover] {
      var p :| 0 <= p < leftover && order[p] == i;
      RankedRemainderBound(remainders, p, Sum(weights));
      FewerUnits(Sum(weights), p, leftover);
    }
  }

  lemma {:induction false} FewerUnits(size: nat, p: nat, count: nat)
    requires size > 0 && p < count
    ensures p * size < size * count
  {
    Distribute(size, p, count - p);
  }

  /** Summing in ranked order is summing. */
  lemma {:induction false} RankedSum(remainders: seq<int>)
    ensures SumOf(Ranking(remainders), Value(remainders)) == Sum(remainders)
  {
    SortPermutes(Indices(|remainders|), RankLeq(remainders));
    SumOfPermutation(Ranking(remainders), Indices(|remainders|), Value(remainders));
    SumByIndex(remainders, |remainders|);
    assert remainders[..|remainders|] == remainders;
  }

  lemma {:induction false} TailIsZero(remainders: seq<int>, p: nat, q: nat)
    requires p <= q < |Ranking(remainders)| && At(remainders, Ranking(remainders)[p]) == 0
    ensures At(remainders, Ranking(remainders)[q]) <= 0
  {
    RankingIsPermutation(remainders);
    assert p < q ==> RankLeq(remainders)(Ranking(remainders)[p], Ranking(remainders)[q]);
  }

  /** If the p-th ranked remainder is zero, so are all later ones, and the p earlier ones bound the sum. */
  lemma {:induction false} RankedRemainderBound(remainders: seq<int>, p: nat, bound: nat)
    requires forall i :: 0 <= i < |remainders| ==> 0 <= remainders[i] < bound
    requires |Ranking(remainders)| == |remainders| && p < |remainders|
    requires At(remainders, Ranking(remainders)[p]) == 0
    ensures Sum(remainders) <= p * bound
  {
    var order, value := Ranking(remainders), Value(remainders);
    hide Ranking, SumOf, Sum;
    RankingIsPermutation(remainders);
    RankedSum(remainders);
    var front, back := order[..p], order[p..];
    assert order == front + back;
    SumOfConcat(front, back, value);
    forall q | 0 <= q < |front| ensures value(front[q]) <= bound {
      assert front[q] == order[q];
    }
    SumOfBound(front, value, bound);
    forall q | 0 <= q < |back| ensures value(back[q]) <= 0 {
      assert back[q] == order[p + q];
      TailIsZero(remainders, p, p + q);
    }
    SumOfBound(back, value, 0);
  }

  lemma {:induction false} SumOfBound(s: seq<int>, f: int -> int, bound: int)
    requires forall q :: 0 <= q < |s| ==> f(s[q]) <= bound
    ensures SumOf(s, f) <= |s| * bound
  {
    if s != [] {
      assert forall q :: 0 <= q < |s[1..]| ==> s[1..][q] == s[q + 1];
      SumOfBound(s[1..], f, bound);
    }
  }

  lemma {:induction false} SumByIndex(s: seq<int>, n: nat)
    requires n <= |s|
    ensures SumOf(Indices(n), Value(s)) == Sum(s[..n])
  {
    if n > 0 {
      SumByIndex(s, n - 1);
      assert Indices(n) == Indices(n - 1) + [n - 1];
      SumOfConcat(Indices(n - 1), [n - 1], Value(s));
      assert s[..n] == s[..n - 1] + [s[n - 1]];
      SumConcat(s[..n - 1], [s[n - 1]]);
    }
  }

  lemma {:induction false} SumConcat(a: seq<int>, b: seq<int>)
    ensures Sum(a + b) == Sum(a) + Sum(b)
  {
    if a == [] {
      assert a + b == b;
    } else {
      assert (a + b)[1..] == a[1..] + b;
      SumConcat(a[1..], b);
    }
  }

  lemma {:induction false} CeilingArithmetic(product: int, size: nat, share: int)
    requires size > 0
    requires if product % size == 0 then share == product / size else share == product / size || share == product / size + 1
    ensures size * share < product + size && product < size * share + size
  {
    DivisionIdentity(product, size);
    Distribute(size, product / size, 1);
  }

  /** Every share is the floor or the ceiling of its quota. */
  lemma {:induction false} SharesAreFloorOrCeiling(total: nat, weights: seq<nat>, shares: seq<int>, i: nat)
    requires Sum(weights) > 0 && IsLargestRemainder(total, weights, shares) && i < |weights|
    ensures var quota := total * weights[i];
            Sum(weights) * shares[i] < quota + Sum(weights) && quota < Sum(weights) * shares[i] + Sum(weights)
  {
    if total * weights[i] % Sum(weights) == 0 {
      WholeQuotasAreExact(total, weights, shares, i);
    }
    assert Bases(total, weights, Sum(weights))[i] == total * weights[i] / Sum(weights);
    CeilingArithmetic(total * weights[i], Sum(weights), shares[i]);
  }

  lemma {:induction false} ZeroWeightGetsNothing(total: nat, weights: seq<nat>, shares: seq<int>, i: nat)
    requires Sum(weights) > 0 && IsLargestRemainder(total, weights, shares)
    requires i < |weights| && weights[i] == 0
    ensures shares[i] == 0
  {
    WholeQuotasAreExact(total, weights, shares, i);
  }

  /** Of two different quotas the larger has more whole units, or the same and a larger remainder. */
  lemma {:induction false} QuotientOrder(a: int, b: int, d: int)
    requires d > 0 && a >= b
    ensures a / d > b / d || (a / d == b / d && a % d >= b % d)
    ensures a > b ==> a / d > b / d || (a / d == b / d && a % d > b % d)
  {
    DivisionIdentity(a, d);
    DivisionIdentity(b, d);
    Distribute(d, a / d, 1);
    MulMonotone(d, a / d + 1, b / d);
  }

  lemma {:induction false} BetterRankGetsNoLess(bases: seq<int>, remainders: seq<int>, shares: seq<int>, i: nat, j: nat)
    requires |bases| == |remainders| && RankedUnits(bases, remainders, shares)
    requires i < |bases| && j < |bases|
    requires bases[i] > bases[j] || (bases[i] == bases[j] && remainders[i] > remainders[j])
    ensures shares[i] >= shares[j]
  {
    assert bases[i] > bases[j] || RankLeq(remainders)(i, j);
  }

  /** A strictly larger weight never receives a smaller share. */
  lemma {:induction false} LargerWeightGetsNoLess(total: nat, weights: seq<nat>, shares: seq<int>, i: nat, j: nat)
    requires Sum(weights) > 0 && IsLargestRemainder(total, weights, shares)
    requires i < |weights| && j < |weights| && weights[i] > weights[j]
    ensures shares[i] >= shares[j]
  {
    if total == 0 {
      WholeQuotasAreExact(total, weights, shares, i);
      WholeQuotasAreExact(total, weights, shares, j);
    } else {
      LargerProduct(total, weights[i], weights[j]);
      QuotientOrder(total * weights[i], total * weights[j], Sum(weights));
      BetterRankGetsNoLess(Bases(total, weights, Sum(weights)), Remainders(total, weights, Sum(weights)), shares, i, j);
    }
  }

  /** Of equal weights the earlier position receives no less. */
  lemma {:induction false} EarlierOfEqualsGetsNoLess(total: nat, weights: seq<nat>, shares: seq<int>, i: nat, j: nat)
    requires Sum(weights) > 0 && IsLargestRemainder(total, weights, shares)
    requires i < j < |weights| && weights[i] == weights[j]
    ensures shares[i] >= shares[j]
  {
    var bases, remainders := Bases(total, weights, Sum(weights)), Remainders(total, weights, Sum(weights));
    assert bases[i] == bases[j] && remainders[i] == remainders[j];
    assert RankLeq(remainders)(i, j);
  }

  lemma {:induction false} LargerProduct(total: nat, a: int, b: int)
    requires total > 0 && a > b
    ensures total * a > total * b
  {
    Distribute(total, b, 1);
    MulMonotone(total, b + 1, a);
  }
}
