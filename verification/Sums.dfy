/** Finite sums of integers over lists, and how they behave when a list is split, filtered or permuted. */
module Sums {

  function Sum(s: seq<int>): int {
    if s == [] then 0 else s[0] + Sum(s[1..])
  }

  function SumOf<T>(s: seq<T>, f: T -> int): int {
    if s == [] then 0 else f(s[0]) + SumOf(s[1..], f)
  }

  function Filter<T>(s: seq<T>, keep: T -> bool): seq<T> {
    if s == [] then []
    else (if keep(s[0]) then [s[0]] else []) + Filter(s[1..], keep)
  }

  lemma {:induction false} SumOfConcat<T>(a: seq<T>, b: seq<T>, f: T -> int)
    ensures SumOf(a + b, f) == SumOf(a, f) + SumOf(b, f)
  {
    if a == [] {
      assert a + b == b;
    } else {
      assert (a + b)[1..] == a[1..] + b;
      SumOfConcat(a[1..], b, f);
    }
  }

  lemma {:induction false} SumUpdate(s: seq<int>, i: nat, x: int)
    requires i < |s|
    ensures Sum(s[i := x]) == Sum(s) - s[i] + x
  {
    if i > 0 {
      assert s[i := x][1..] == s[1..][i - 1 := x];
      SumUpdate(s[1..], i - 1, x);
    }
  }

  lemma {:induction false} SumOfRemove<T>(s: seq<T>, k: nat, f: T -> int)
    requires k < |s|
    ensures SumOf(s, f) == f(s[k]) + SumOf(s[..k] + s[k + 1..], f)
    ensures multiset(s) == multiset{s[k]} + multiset(s[..k] + s[k + 1..])
  {
    assert s == s[..k] + ([s[k]] + s[k + 1..]);
    SumOfConcat(s[..k], [s[k]] + s[k + 1..], f);
    SumOfConcat([s[k]], s[k + 1..], f);
    SumOfConcat(s[..k], s[k + 1..], f);
  }

  /** A permutation of a list holds its head somewhere, and is a permutation of its tail elsewhere. */
  lemma {:induction false} PermutedHead<T>(a: seq<T>, b: seq<T>) returns (k: nat)
    requires multiset(a) == multiset(b) && a != []
    ensures k < |b| && b[k] == a[0] && multiset(a[1..]) == multiset(b[..k] + b[k + 1..])
  {
    assert a[0] in multiset(b);
    k :| 0 <= k < |b| && b[k] == a[0];
    assert a == [a[0]] + a[1..];
    assert b == b[..k] + [b[k]] + b[k + 1..];
    assert multiset(a[1..]) == multiset(a) - multiset{a[0]};
    assert multiset(b[..k] + b[k + 1..]) == multiset(b) - multiset{b[k]};
  }

  /** The order in which a list is summed is irrelevant. */
  lemma {:induction false} SumOfPermutation<T>(a: seq<T>, b: seq<T>, f: T -> int)
    requires multiset(a) == multiset(b)
    ensures SumOf(a, f) == SumOf(b, f)
  {
    if a == [] {
      assert |multiset(b)| == 0;
    } else {
      var k := PermutedHead(a, b);
      SumOfRemove(b, k, f);
      SumOfPermutation(a[1..], b[..k] + b[k + 1..], f);
    }
  }

  lemma {:induction false} FilterConcat<T>(a: seq<T>, b: seq<T>, keep: T -> bool)
    ensures Filter(a + b, keep) == Filter(a, keep) + Filter(b, keep)
  {
    if a == [] {
      assert a + b == b;
    } else {
      var head := if keep(a[0]) then [a[0]] else [];
      assert (a + b)[0] == a[0] && (a + b)[1..] == a[1..] + b;
      FilterConcat(a[1..], b, keep);
      assert Filter(a + b, keep) == head + Filter(a[1..] + b, keep);
      assert head + (Filter(a[1..], keep) + Filter(b, keep)) == (head + Filter(a[1..], keep)) + Filter(b, keep);
    }
  }

  lemma {:induction false} FilterMembers<T(!new)>(s: seq<T>, keep: T -> bool)
    ensures forall x :: x in Filter(s, keep) <==> x in s && keep(x)
  {
    if s != [] {
      FilterMembers(s[1..], keep);
      assert s == [s[0]] + s[1..];
    }
  }

  lemma {:induction false} FilterAll<T>(s: seq<T>, keep: T -> bool)
    requires forall i :: 0 <= i < |s| ==> keep(s[i])
    ensures Filter(s, keep) == s
  {
    if s != [] {
      FilterAll(s[1..], keep);
    }
  }

  lemma {:induction false} FilterNone<T>(s: seq<T>, keep: T -> bool)
    requires forall i :: 0 <= i < |s| ==> !keep(s[i])
    ensures Filter(s, keep) == []
  {
    if s != [] {
      FilterNone(s[1..], keep);
    }
  }

  lemma {:induction false} FilterCommutes<T>(s: seq<T>, a: T -> bool, b: T -> bool)
    ensures Filter(Filter(s, a), b) == Filter(Filter(s, b), a)
  {
    if s != [] {
      FilterCommutes(s[1..], a, b);
      FilterConcat(if a(s[0]) then [s[0]] else [], Filter(s[1..], a), b);
      FilterConcat(if b(s[0]) then [s[0]] else [], Filter(s[1..], b), a);
    }
  }

  /** If one position passes, the filter leaves it alone. */
  lemma {:induction false} FilterOne<T>(s: seq<T>, keep: T -> bool, i: int)
    requires 0 <= i < |s| && keep(s[i]) && forall j :: 0 <= j < |s| && j != i ==> !keep(s[j])
    ensures Filter(s, keep) == [s[i]]
  {
    assert s == s[..i] + ([s[i]] + s[i + 1..]);
    FilterConcat(s[..i], [s[i]] + s[i + 1..], keep);
    FilterConcat([s[i]], s[i + 1..], keep);
    FilterNone(s[..i], keep);
    FilterNone(s[i + 1..], keep);
    FilterAll([s[i]], keep);
  }

  /** If two positions pass, the filter leaves them in order. */
  lemma {:induction false} FilterTwo<T>(s: seq<T>, keep: T -> bool, i: int, j: int)
    requires 0 <= i < j < |s| && keep(s[i]) && keep(s[j])
    requires forall k :: 0 <= k < |s| && k != i && k != j ==> !keep(s[k])
    ensures Filter(s, keep) == [s[i], s[j]]
  {
    var front, back := s[..i + 1], s[i + 1..];
    assert s == front + back;
    FilterConcat(front, back, keep);
    assert front[i] == s[i] && back[j - i - 1] == s[j];
    FilterOne(front, keep, i);
    FilterOne(back, keep, j - i - 1);
  }

  /** A filter leaves one element exactly when one position passes. */
  lemma {:induction false} FilterLeavesOne<T>(s: seq<T>, keep: T -> bool)
    ensures |Filter(s, keep)| == 1 <==> exists i :: OnlyPosition(s, keep, i)
  {
    if s != [] {
      var rest := s[1..];
      FilterLeavesOne(rest, keep);
      FilterLeavesNone(rest, keep);
      if keep(s[0]) {
        assert |Filter(s, keep)| == 1 + |Filter(rest, keep)|;
        if |Filter(rest, keep)| == 0 {
          assert OnlyPosition(s, keep, 0);
        } else {
          var j :| 0 <= j < |rest| && keep(rest[j]);
          assert s[j + 1] == rest[j];
        }
      } else {
        assert |Filter(s, keep)| == |Filter(rest, keep)|;
        if i :| OnlyPosition(rest, keep, i) {
          assert OnlyPosition(s, keep, i + 1);
        }
        if i :| OnlyPosition(s, keep, i) {
          assert OnlyPosition(rest, keep, i - 1);
        }
      }
    }
  }

  ghost predicate OnlyPosition<T>(s: seq<T>, keep: T -> bool, i: int) {
    0 <= i < |s| && keep(s[i]) && forall j :: 0 <= j < |s| && j != i ==> !keep(s[j])
  }

  lemma {:induction false} FilterLeavesNone<T>(s: seq<T>, keep: T -> bool)
    ensures |Filter(s, keep)| == 0 <==> forall j :: 0 <= j < |s| ==> !keep(s[j])
  {
    if s != [] {
      FilterLeavesNone(s[1..], keep);
      assert |Filter(s, keep)| == (if keep(s[0]) then 1 else 0) + |Filter(s[1..], keep)|;
      assert forall j :: 0 < j < |s| ==> s[j] == s[1..][j - 1];
    }
  }

  /** Splitting a filter into two exclusive cases splits the sum. */
  lemma {:induction false} SumFilterSplit<T>(s: seq<T>, whole: T -> bool, a: T -> bool, b: T -> bool, f: T -> int)
    requires forall x :: x in s ==> (whole(x) <==> a(x) || b(x)) && !(a(x) && b(x))
    ensures SumOf(Filter(s, whole), f) == SumOf(Filter(s, a), f) + SumOf(Filter(s, b), f)
  {
    if s != [] {
      var head, rest := s[0], s[1..];
      assert s == [head] + rest && head in s;
      SumFilterSplit(rest, whole, a, b, f);
      SumFilterHead(s, whole, f);
      SumFilterHead(s, a, f);
      SumFilterHead(s, b, f);
    }
  }

  lemma {:induction false} SumFilterHead<T>(s: seq<T>, keep: T -> bool, f: T -> int)
    requires s != []
    ensures SumOf(Filter(s, keep), f) == (if keep(s[0]) then f(s[0]) else 0) + SumOf(Filter(s[1..], keep), f)
  {
    var head := if keep(s[0]) then [s[0]] else [];
    SumOfConcat(head, Filter(s[1..], keep), f);
  }

  lemma {:induction false} FilterSame<T>(s: seq<T>, a: T -> bool, b: T -> bool)
    requires forall x :: x in s ==> a(x) == b(x)
    ensures Filter(s, a) == Filter(s, b)
  {
    if s != [] {
      assert s == [s[0]] + s[1..] && s[0] in s;
      FilterSame(s[1..], a, b);
    }
  }

  lemma {:induction false} SumOfNonNegative<T>(s: seq<T>, f: T -> int)
    requires forall x :: x in s ==> f(x) >= 0
    ensures SumOf(s, f) >= 0
  {
    if s != [] {
      assert s == [s[0]] + s[1..] && s[0] in s;
      SumOfNonNegative(s[1..], f);
    }
  }

  lemma {:induction false} DivisionIdentity(a: int, d: int)
    requires d > 0
    ensures a == d * (a / d) + a % d && 0 <= a % d < d
    ensures a / d * d <= a < a / d * d + d
  {
  }

  // ----- maxima -----

  function MaxOf<T>(s: seq<T>, f: T -> int): int
    requires s != []
  {
    if |s| == 1 then f(s[0])
    else
      var rest := MaxOf(s[1..], f);
      if f(s[0]) >= rest then f(s[0]) else rest
  }

  lemma {:induction false} MaxIsReached<T>(s: seq<T>, f: T -> int)
    requires s != []
    ensures exists x :: x in s && f(x) == MaxOf(s, f)
    ensures forall x :: x in s ==> f(x) <= MaxOf(s, f)
  {
    assert s == [s[0]] + s[1..];
    if |s| > 1 {
      MaxIsReached(s[1..], f);
    } else {
      assert s[0] in s;
    }
  }

  lemma {:induction false} MaxSame<T>(s: seq<T>, f: T -> int, g: T -> int)
    requires s != [] && forall x :: x in s ==> f(x) == g(x)
    ensures MaxOf(s, f) == MaxOf(s, g)
  {
    assert s[0] in s;
    if |s| > 1 {
      MaxSame(s[1..], f, g);
    }
  }

  // ----- sums of decimals -----

  function RealSum(s: seq<real>): real {
    if s == [] then 0.0 else s[0] + RealSum(s[1..])
  }

  lemma {:induction false} RealSumConcat(a: seq<real>, b: seq<real>)
    ensures RealSum(a + b) == RealSum(a) + RealSum(b)
  {
    if a == [] {
      assert a + b == b;
    } else {
      assert (a + b)[1..] == a[1..] + b;
      RealSumConcat(a[1..], b);
    }
  }
}
