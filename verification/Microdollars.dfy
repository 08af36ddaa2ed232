/** Rounding an interval's slices to integer microdollars once (backend/app/services/cost_engine.py). */
module Microdollars {
  import opened Outcomes
  import opened Sums
  import opened Sorting
  import LargestRemainder

  datatype EvaluationError = NegativeAmount

  function Floors(values: seq<real>): (floors: seq<int>)
    ensures |floors| == |values|
  {
    seq(|values|, i requires 0 <= i < |values| => values[i].Floor)
  }

  function Fraction(x: real): real {
    x - x.Floor as real
  }

  function Fractions(values: seq<real>): (fractions: seq<real>)
    ensures |fractions| == |values|
  {
    seq(|values|, i requires 0 <= i < |values| => Fraction(values[i]))
  }

  /** To the nearest integer, a tie to the even one. */
  function HalfEven(x: real): int {
    if Fraction(x) < 0.5 || (Fraction(x) == 0.5 && x.Floor % 2 == 0) then x.Floor else x.Floor + 1
  }

  function FractionAt(values: seq<real>, i: int): real {
    if 0 <= i < |values| then Fraction(values[i]) else 0.0
  }

  /** Larger fractions first, ties to the smaller index. */
  function FractionLeq(values: seq<real>): (int, int) -> bool {
    (i, j) => FractionAt(values, i) > FractionAt(values, j) || (FractionAt(values, i) == FractionAt(values, j) && i <= j)
  }

  predicate NonNegative(values: seq<real>) {
    forall i :: 0 <= i < |values| ==> values[i] >= 0.0
  }

  /** How many units the floors leave of the rounded total. */
  function Remaining(values: seq<real>): int {
    HalfEven(RealSum(values)) - Sum(Floors(values))
  }

  /** The positions that receive the remaining units. */
  function Picks(values: seq<real>): (picks: seq<int>)
    ensures |picks| == Remaining(values) && LargestRemainder.Within(picks, |values|) && Distinct(picks)
  {
    RemainingBounds(values);
    RankedPositions(values);
    LargestRemainder.Ranked(|values|, FractionLeq(values))[..Remaining(values)]
  }

  /** The amounts in whole microdollars. */
  function Rounded(values: seq<real>): (r: seq<int>)
    ensures |r| == |values|
  {
    LargestRemainder.Bump(Floors(values), Picks(values))
  }

  method AllocateMicrodollars(values: seq<real>) returns (r: Result<seq<int>, EvaluationError>)
    ensures r.Err? <==> !NonNegative(values)
    ensures r.Ok? ==> r.value == Rounded(values)
  {
    if exists i :: 0 <= i < |values| && values[i] < 0.0 {
      return Err(NegativeAmount);
    }
    hide Floors, Picks, NonNegative, Remaining;
    var bases, picks := Floors(values), Picks(values);
    ghost var initial := bases;
    for c := 0 to |picks|
      invariant |bases| == |values|
      invariant LargestRemainder.Bump(initial, picks) == LargestRemainder.Bump(bases, picks[c..])
    {
      assert picks[c..][1..] == picks[c + 1..];
      bases := bases[picks[c] := bases[picks[c]] + 1];
    }
    assert picks[|picks|..] == [];
    r := Ok(bases);
  }

  lemma {:induction false} FractionOrder(values: seq<real>)
    ensures TotalOrder(FractionLeq(values))
  {
  }

  // ----- the remaining units -----

  lemma {:induction false} SumSplits(values: seq<real>)
    ensures RealSum(values) == Sum(Floors(values)) as real + RealSum(Fractions(values))
  {
    if values != [] {
      SumSplits(values[1..]);
      assert Floors(values)[1..] == Floors(values[1..]) && Fractions(values)[1..] == Fractions(values[1..]);
    }
  }

  ghost function Fractional(values: seq<real>): set<int> {
    set i | 0 <= i < |values| && Fraction(values[i]) > 0.0
  }

  /** The fractions sum to less than the number of those that are not zero. */
  lemma {:induction false} FractionsBelowCount(values: seq<real>)
    ensures 0.0 <= RealSum(Fractions(values))
    ensures if Fractional(values) == {} then RealSum(Fractions(values)) == 0.0
            else RealSum(Fractions(values)) < |Fractional(values)| as real
  {
    if values == [] {
      assert Fractional(values) == {};
    } else {
      var n := |values| - 1;
      var front, x := values[..n], Fraction(values[n]);
      FractionsBelowCount(front);
      assert Fractions(values) == Fractions(front) + [x];
      RealSumConcat(Fractions(front), [x]);
      assert RealSum([x]) == x;
      assert Fractional(values) == Fractional(front) + (if x > 0.0 then {n} else {});
      assert n !in Fractional(front);
    }
  }

  lemma {:induction false} CountWithin(s: set<int>, n: nat)
    requires forall i :: i in s ==> 0 <= i < n
    ensures |s| <= n
  {
    if n == 0 {
      assert forall i :: i !in s;
    } else {
      CountWithin(s - {n - 1}, n - 1);
    }
  }

  lemma {:induction false} HalfEvenIsNear(x: real)
    ensures x - 0.5 <= HalfEven(x) as real <= x + 0.5
    ensures x == x.Floor as real ==> HalfEven(x) == x.Floor
  {
  }

  /** There are never fewer than no units left, and never more than amounts with a fraction. */
  lemma {:induction false} RemainingBounds(values: seq<real>)
    ensures 0 <= Remaining(values) <= |Fractional(values)| <= |values|
  {
    SumSplits(values);
    FractionsBelowCount(values);
    HalfEvenIsNear(RealSum(values));
    CountWithin(Fractional(values), |values|);
  }

  // ----- what the rounding promises -----

  lemma {:induction false} RankedPositions(values: seq<real>)
    ensures var order := LargestRemainder.Ranked(|values|, FractionLeq(values));
            && |order| == |values| && Distinct(order) && LargestRemainder.Within(order, |values|) && Sorted(order, FractionLeq(values))
            && (forall i :: i in order <==> 0 <= i < |values|)
  {
    FractionOrder(values);
    LargestRemainder.RankedIsPermutation(|values|, FractionLeq(values));
  }

  /** A whole amount is ranked behind every fractional one. */
  lemma {:induction false} FractionalRankFirst(values: seq<real>, q: nat, f: int)
    requires q < |LargestRemainder.Ranked(|values|, FractionLeq(values))| && f in Fractional(values)
    requires FractionAt(values, LargestRemainder.Ranked(|values|, FractionLeq(values))[q]) == 0.0
    ensures f in LargestRemainder.Ranked(|values|, FractionLeq(values))[..q]
  {
    var order, leq := LargestRemainder.Ranked(|values|, FractionLeq(values)), FractionLeq(values);
    RankedPositions(values);
    hide LargestRemainder.Ranked;
    assert f in order;
    var p :| 0 <= p < |order| && order[p] == f;
    assert p < q;
    assert order[..q][p] == f;
  }

  /** So no unit reaches a whole amount. */
  lemma {:induction false} WholeIsNotPicked(values: seq<real>, i: nat)
    requires i < |values| && Fraction(values[i]) == 0.0
    ensures i !in Picks(values)
  {
    var order := LargestRemainder.Ranked(|values|, FractionLeq(values));
    RankedPositions(values);
    RemainingBounds(values);
    if i in Picks(values) {
      var q :| 0 <= q < Remaining(values) && order[q] == i;
      var front := order[..q];
      forall f | f in Fractional(values) ensures f in (set x | x in front) {
        FractionalRankFirst(values, q, f);
      }
      ElementCount(front);
      SubsetSize(Fractional(values), set x | x in front);
    }
  }

  lemma {:induction false} ElementCount(s: seq<int>)
    ensures |set x | x in s| <= |s|
  {
    if s != [] {
      ElementCount(s[1..]);
      assert (set x | x in s) == {s[0]} + (set x | x in s[1..]);
    }
  }

  lemma {:induction false} SubsetSize(a: set<int>, b: set<int>)
    requires a <= b
    ensures |a| <= |b|
  {
    assert b == a + (b - a);
    assert |b| == |a| + |b - a|;
  }

  /** The parts add up to the total rounded once, half to even. */
  lemma {:induction false} RoundedConserves(values: seq<real>)
    ensures Sum(Rounded(values)) == HalfEven(RealSum(values))
  {
    LargestRemainder.BumpSum(Floors(values), Picks(values));
  }

  /** Every part is its amount rounded down or up; a whole amount is kept. */
  lemma {:induction false} RoundedParts(values: seq<real>, i: nat)
    requires i < |values|
    ensures Rounded(values)[i] == values[i].Floor || Rounded(values)[i] == values[i].Floor + 1
    ensures Fraction(values[i]) == 0.0 ==> Rounded(values)[i] == values[i].Floor
  {
    LargestRemainder.BumpAt(Floors(values), Picks(values), i);
    if Fraction(values[i]) == 0.0 {
      WholeIsNotPicked(values, i);
    }
  }

  /** Non-negative amounts round to non-negative parts and a non-negative total. */
  lemma {:induction false} RoundedIsNonNegative(values: seq<real>)
    requires NonNegative(values)
    ensures forall i :: 0 <= i < |values| ==> Rounded(values)[i] >= 0
    ensures Sum(Rounded(values)) >= 0
  {
    forall i | 0 <= i < |values| ensures Rounded(values)[i] >= 0 {
      RoundedParts(values, i);
    }
    LargestRemainder.SumNonNegative(Rounded(values));
  }

  /** Half-even rounding is the nearest integer, and of two nearest ones the even one. */
  lemma {:induction false} HalfEvenMeans(x: real, n: int)
    ensures n == HalfEven(x) <==> x - 0.5 <= n as real <= x + 0.5 && (n as real == x + 0.5 || n as real == x - 0.5 ==> n % 2 == 0)
  {
    var f := x.Floor;
    if x - 0.5 <= n as real <= x + 0.5 {
      assert n == f || n == f + 1 by { NearFloor(x, n); }
    }
  }

  lemma {:induction false} NearFloor(x: real, n: int)
    requires x - 0.5 <= n as real <= x + 0.5
    ensures n == x.Floor || n == x.Floor + 1
  {
    assert x.Floor as real <= x < x.Floor as real + 1.0;
  }

  /** A larger fraction, or an equal one earlier, is rounded up first. */
  lemma {:induction false} LargerFractionFirst(values: seq<real>, i: nat, j: nat)
    requires i < |values| && j < |values| && Rounded(values)[j] > values[j].Floor
    requires values[i] - values[i].Floor as real > values[j] - values[j].Floor as real
          || (values[i] - values[i].Floor as real == values[j] - values[j].Floor as real && i < j)
    ensures Rounded(values)[i] == values[i].Floor + 1
  {
    var order, picks := LargestRemainder.Ranked(|values|, FractionLeq(values)), Picks(values);
    LargestRemainder.BumpAt(Floors(values), picks, i);
    LargestRemainder.BumpAt(Floors(values), picks, j);
    RankedPositions(values);
    RemainingBounds(values);
    hide LargestRemainder.Ranked, LargestRemainder.Bump, Remaining;
    var p :| 0 <= p < |picks| && picks[p] == j;
    assert order[p] == j && i in order;
    var q :| 0 <= q < |order| && order[q] == i;
    assert FractionLeq(values)(i, j) && !FractionLeq(values)(j, i);
    assert q <= p;
    assert picks[q] == i;
  }
}
