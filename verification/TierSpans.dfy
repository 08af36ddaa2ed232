/** Half-open usage tiers and the finitely many points that decide them (backend/app/schemas/billing.py, backend/app/services/rate_workflow.py). */
module TierSpans {
  import opened Outcomes
  import opened Sorting

  /** From start up to, but not including, end; no end means every higher usage. */
  datatype Span = Span(start: real, end: Option<real>)

  predicate Covers(s: Span, usage: real) {
    usage >= s.start && (s.end.None? || usage < s.end.value)
  }

  predicate OrderedSpan(s: Span) {
    s.start >= 0.0 && (s.end.Some? ==> s.end.value > s.start)
  }

  function RealLeq(): (real, real) -> bool {
    (a: real, b: real) => a <= b
  }

  predicate IsBoundary(spans: seq<Span>, t: real) {
    t == 0.0 || exists i :: 0 <= i < |spans| && (t == spans[i].start || spans[i].end == Some(t))
  }

  /** Zero and every tier boundary, in order. */
  method Boundaries(spans: seq<Span>) returns (ordered: seq<real>)
    ensures ordered != [] && Sorted(ordered, RealLeq()) && Distinct(ordered)
    ensures forall t :: t in ordered <==> IsBoundary(spans, t)
  {
    var thresholds := {0.0};
    for k := 0 to |spans|
      invariant forall t :: t in thresholds <==> IsBoundary(spans[..k], t)
    {
      BoundariesGrow(spans, k);
      thresholds := thresholds + {spans[k].start};
      if spans[k].end.Some? {
        thresholds := thresholds + {spans[k].end.value};
      }
    }
    assert spans[..|spans|] == spans;
    ordered := SortedElements(thresholds, RealLeq());
    assert 0.0 in thresholds && 0.0 in ordered;
  }

  lemma {:induction false} BoundariesGrow(spans: seq<Span>, k: nat)
    requires k < |spans|
    ensures forall t :: IsBoundary(spans[..k + 1], t)
                   <==> IsBoundary(spans[..k], t) || t == spans[k].start || spans[k].end == Some(t)
  {
    var longer, shorter := spans[..k + 1], spans[..k];
    forall t ensures IsBoundary(longer, t) <==> IsBoundary(shorter, t) || t == spans[k].start || spans[k].end == Some(t) {
      if IsBoundary(shorter, t) && t != 0.0 {
        var i :| 0 <= i < |shorter| && (t == shorter[i].start || shorter[i].end == Some(t));
        assert longer[i] == shorter[i];
      }
      if IsBoundary(longer, t) && t != 0.0 {
        var i :| 0 <= i < |longer| && (t == longer[i].start || longer[i].end == Some(t));
        assert i == k || shorter[i] == longer[i];
      }
      assert longer[k] == spans[k];
    }
  }

  /** Points holding zero and every boundary, none negative. */
  ghost predicate HoldsBoundaries(spans: seq<Span>, points: seq<real>) {
    && (forall i :: 0 <= i < |points| ==> points[i] >= 0.0)
    && (forall t :: IsBoundary(spans, t) ==> t in points)
  }

  /** Between boundaries nothing changes: the last one at or below a usage answers for it. */
  lemma {:induction false} BoundaryBelow(spans: seq<Span>, points: seq<real>, usage: real) returns (t: real)
    requires HoldsBoundaries(spans, points) && usage >= 0.0
    ensures t in points && t <= usage
    ensures forall i :: 0 <= i < |spans| ==> (Covers(spans[i], t) <==> Covers(spans[i], usage))
    ensures forall x :: x in points && x <= usage ==> x <= t
  {
    var below := set x | x in points && x <= usage;
    var geq := (a: real, b: real) => a >= b;
    assert IsBoundary(spans, 0.0) && 0.0 in below;
    t := LeastExists(below, geq);
    assert forall x :: x in below ==> geq(t, x);
    forall x | x in points && x <= usage ensures x <= t {
      assert x in below && geq(t, x);
    }
    forall i | 0 <= i < |spans| ensures Covers(spans[i], t) <==> Covers(spans[i], usage) {
      var s := spans[i];
      assert IsBoundary(spans, s.start) && (s.end.Some? ==> IsBoundary(spans, s.end.value));
      assert s.start <= usage <==> s.start in below;
      assert s.end.Some? ==> (s.end.value <= usage <==> s.end.value in below);
    }
  }
}
