/** The interpolated percentile of a list of samples, over exact reals. */
module Percentile {
  import opened Common

  predicate Sorted(s: seq<real>) { forall i, j :: 0 <= i < j < |s| ==> s[i] <= s[j] }

  function Insert(x: real, s: seq<real>): (r: seq<real>)
    ensures |r| == |s| + 1 && multiset(r) == multiset(s) + multiset{x}
  {
    if s == [] || x <= s[0] then
      assert [x] + s == [x] + s[..];
      [x] + s
    else
      var r := [s[0]] + Insert(x, s[1..]);
      assert s == [s[0]] + s[1..];
      r
  }

  function Sort(s: seq<real>): (r: seq<real>)
    ensures |r| == |s|
  {
    if s == [] then [] else Insert(s[0], Sort(s[1..]))
  }

  lemma {:induction false} InsertKeepsSorted(x: real, s: seq<real>)
    requires Sorted(s)
    ensures Sorted(Insert(x, s))
  {
    if s != [] && x > s[0] {
      InsertKeepsSorted(x, s[1..]);
      var tail := Insert(x, s[1..]);
      forall i | 0 <= i < |tail|
        ensures s[0] <= tail[i]
      {
        assert tail[i] in multiset(tail);
        if tail[i] != x {
          assert tail[i] in s[1..];
        }
      }
    }
  }

  lemma {:induction false} SortSorts(s: seq<real>)
    ensures Sorted(Sort(s)) && multiset(Sort(s)) == multiset(s)
  {
    if s != [] {
      SortSorts(s[1..]);
      InsertKeepsSorted(s[0], Sort(s[1..]));
      RestOf(s);
    }
  }

  /** `None` without samples. The source is only asked for percentages from 0 to 100. */
  function Percentile(values: seq<real>, pct: real): Option<real>
    requires 0.0 <= pct <= 100.0
  {
    if values == [] then None else Some(At(Sort(values), Position(|values|, pct)))
  }

  function Share(pct: real, m: real): real { pct / 100.0 * m }

  lemma SharesInOrder(p: real, q: real, m: real)
    requires p <= q && 0.0 <= m
    ensures Share(p, m) <= Share(q, m) && Share(0.0, m) == 0.0 && Share(100.0, m) == m
  {
    ProductNonNegative(q - p, m);
    assert Share(q, m) - Share(p, m) == (q - p) * m / 100.0;
  }

  /** Where between the first and the last sample the percentage falls. */
  function Position(n: nat, pct: real): (p: real)
    requires n > 0 && 0.0 <= pct <= 100.0
    ensures 0.0 <= p <= (n - 1) as real
  {
    SharesInOrder(0.0, pct, (n - 1) as real);
    SharesInOrder(pct, 100.0, (n - 1) as real);
    Share(pct, (n - 1) as real)
  }

  /** The part `w` of the way from `a` to `b`. */
  function Blend(a: real, b: real, w: real): real { a + (b - a) * w }

  /** Linear interpolation between the two samples around `position`. */
  function At(ordered: seq<real>, position: real): real
    requires ordered != [] && 0.0 <= position <= (|ordered| - 1) as real
  {
    var lower := position.Floor;
    var upper := if lower + 1 < |ordered| - 1 then lower + 1 else |ordered| - 1;
    if lower == upper then ordered[lower]
    else Blend(ordered[lower], ordered[upper], position - lower as real)
  }

  // ---- Laws ------------------------------------------------------------------------------------------------

  lemma ProductNonNegative(x: real, y: real)
    requires 0.0 <= x && 0.0 <= y
    ensures 0.0 <= x * y
  {}

  /** Blending is monotone in each of its arguments. */
  lemma BlendMonotone(a: real, b: real, v: real, c: real, d: real, w: real)
    requires a <= c && b <= d && a <= b && 0.0 <= v <= w <= 1.0
    ensures Blend(a, b, v) <= Blend(c, d, w)
  {
    ProductNonNegative(b - a, w - v);
    assert Blend(a, b, w) - Blend(a, b, v) == (b - a) * (w - v);
    ProductNonNegative(c - a, 1.0 - w);
    ProductNonNegative(d - b, w);
    assert Blend(c, d, w) - Blend(a, b, w) == (c - a) * (1.0 - w) + (d - b) * w;
  }

  lemma AtWithinSegment(s: seq<real>, p: real)
    requires Sorted(s) && s != [] && 0.0 <= p <= (|s| - 1) as real
    ensures s[0] <= s[p.Floor] <= At(s, p) <= s[|s| - 1]
    ensures p.Floor + 1 < |s| ==> At(s, p) <= s[p.Floor + 1]
  {
    if p.Floor + 1 < |s| {
      var w := p - p.Floor as real;
      var a := s[p.Floor];
      var b := s[p.Floor + 1];
      BlendMonotone(a, b, 0.0, a, b, w);
      BlendMonotone(a, b, w, a, b, 1.0);
    }
  }

  /** Further right is higher, within a segment and across segments. */
  lemma AtMonotone(s: seq<real>, p: real, q: real)
    requires Sorted(s) && s != [] && 0.0 <= p <= q <= (|s| - 1) as real
    ensures At(s, p) <= At(s, q)
  {
    AtWithinSegment(s, p);
    AtWithinSegment(s, q);
    if p.Floor == q.Floor && p.Floor + 1 < |s| {
      var i := p.Floor;
      BlendMonotone(s[i], s[i + 1], p - i as real, s[i], s[i + 1], q - i as real);
    }
  }

  /** Raising samples pointwise raises the interpolation. */
  lemma AtDominated(s: seq<real>, t: seq<real>, p: real)
    requires Sorted(s) && |s| == |t| != 0 && (forall i :: 0 <= i < |s| ==> s[i] <= t[i])
    requires 0.0 <= p <= (|s| - 1) as real
    ensures At(s, p) <= At(t, p)
  {
    var i := p.Floor;
    if i + 1 < |s| {
      BlendMonotone(s[i], s[i + 1], p - i as real, t[i], t[i + 1], p - i as real);
    }
  }

  predicate Minimum(values: seq<real>, m: real) { m in values && forall i :: 0 <= i < |values| ==> m <= values[i] }

  predicate Maximum(values: seq<real>, m: real) { m in values && forall i :: 0 <= i < |values| ==> values[i] <= m }

  lemma SortEnds(values: seq<real>)
    requires values != []
    ensures Minimum(values, Sort(values)[0]) && Maximum(values, Sort(values)[|values| - 1])
  {
    SortSorts(values);
    var s := Sort(values);
    assert s[0] in multiset(s) && s[|s| - 1] in multiset(s);
    forall i | 0 <= i < |values|
      ensures s[0] <= values[i] <= s[|s| - 1]
    {
      assert values[i] in multiset(values);
      assert values[i] in s;
    }
  }

  lemma ExtremesAreUnique(values: seq<real>, low: real, high: real)
    requires Minimum(values, low) && Maximum(values, high)
    ensures values != [] && low == Sort(values)[0] && high == Sort(values)[|values| - 1]
  {
    SortEnds(values);
    var i :| 0 <= i < |values| && values[i] == low;
    var j :| 0 <= j < |values| && values[j] == high;
    var k :| 0 <= k < |values| && values[k] == Sort(values)[0];
    var m :| 0 <= m < |values| && values[m] == Sort(values)[|values| - 1];
  }

  /** Between the least and the greatest sample. */
  lemma WithinRange(values: seq<real>, pct: real, low: real, high: real)
    requires Minimum(values, low) && Maximum(values, high) && 0.0 <= pct <= 100.0
    ensures low <= Percentile(values, pct).value <= high
  {
    SortSorts(values);
    ExtremesAreUnique(values, low, high);
    AtWithinSegment(Sort(values), Position(|values|, pct));
  }

  /** Which are the percentiles 0 and 100. */
  lemma RangeIsReached(values: seq<real>, low: real, high: real)
    requires Minimum(values, low) && Maximum(values, high)
    ensures Percentile(values, 0.0) == Some(low) && Percentile(values, 100.0) == Some(high)
  {
    ExtremesAreUnique(values, low, high);
    PositionEnds(|values|);
    AtEnds(Sort(values));
  }

  lemma PositionEnds(n: nat)
    requires n > 0
    ensures Position(n, 0.0) == 0.0 && Position(n, 100.0) == (n - 1) as real
  {
    SharesInOrder(0.0, 100.0, (n - 1) as real);
  }

  lemma AtEnds(s: seq<real>)
    requires s != []
    ensures At(s, 0.0) == s[0] && At(s, (|s| - 1) as real) == s[|s| - 1]
  {
    assert (0.0 as real).Floor == 0 && ((|s| - 1) as real).Floor == |s| - 1;
    if |s| > 1 {
      assert At(s, 0.0) == Blend(s[0], s[1], 0.0);
    }
  }

  lemma PositionMonotone(n: nat, p: real, q: real)
    requires n > 0 && 0.0 <= p <= q <= 100.0
    ensures Position(n, p) <= Position(n, q)
  {
    SharesInOrder(p, q, (n - 1) as real);
  }

  lemma MonotoneInPercentage(values: seq<real>, p: real, q: real)
    requires values != [] && 0.0 <= p <= q <= 100.0
    ensures Percentile(values, p).value <= Percentile(values, q).value
  {
    SortSorts(values);
    PositionMonotone(|values|, p, q);
    AtMonotone(Sort(values), Position(|values|, p), Position(|values|, q));
  }

  /** The latencies of a report are in order. */
  lemma ReportedInOrder(latencies: seq<real>, greatest: real)
    requires Maximum(latencies, greatest)
    ensures Percentile(latencies, 50.0).value <= Percentile(latencies, 95.0).value <= Percentile(latencies,
        99.0).value <= greatest
  {
    SortEnds(latencies);
    WithinRange(latencies, 99.0, Sort(latencies)[0], greatest);
    MonotoneInPercentage(latencies, 50.0, 95.0);
    MonotoneInPercentage(latencies, 95.0, 99.0);
  }

  lemma LeastIsFirst(s: seq<real>, t: seq<real>)
    requires Sorted(s) && Sorted(t) && multiset(s) == multiset(t) && s != []
    ensures t != [] && s[0] == t[0]
  {
    assert s[0] in multiset(t);
    assert t[0] in multiset(s);
  }

  lemma {:induction false} SortedIsUnique(s: seq<real>, t: seq<real>)
    requires Sorted(s) && Sorted(t) && multiset(s) == multiset(t)
    ensures s == t
  {
    if s == [] {
      assert |multiset(t)| == |t|;
    } else {
      LeastIsFirst(s, t);
      RestOf(s);
      RestOf(t);
      SortedIsUnique(s[1..], t[1..]);
    }
  }

  lemma RestOf(s: seq<real>)
    requires s != []
    ensures multiset(s[1..]) == multiset(s) - multiset{s[0]} && s == [s[0]] + s[1..]
  {
    assert s == [s[0]] + s[1..];
  }

  lemma OrderDoesNotMatter(a: seq<real>, b: seq<real>, pct: real)
    requires multiset(a) == multiset(b) && 0.0 <= pct <= 100.0
    ensures Percentile(a, pct) == Percentile(b, pct)
  {
    SortSorts(a);
    SortSorts(b);
    SortedIsUnique(Sort(a), Sort(b));
  }

  /** The position splits into a whole number and a fraction in one way only. */
  lemma WholeAndFraction(p: real, i: nat, w: real)
    requires p == i as real + w && 0.0 <= w < 1.0
    ensures p.Floor == i && p - p.Floor as real == w
  {
  }

  /** Two samples in the proportion of the fraction. */
  lemma BlendExactly(a: real, b: real, w: real)
    ensures Blend(a, b, w) == a * (1.0 - w) + b * w
  {
  }

  /**
   The value between two samples: with the samples in order, the percentage falls on one of them, or a fraction `w`
   of the way from one to the next.
   */
  lemma PercentileExactly(values: seq<real>, ordered: seq<real>, pct: real, i: nat, w: real)
    requires values != [] && 0.0 <= pct <= 100.0
    requires multiset(ordered) == multiset(values) && forall j, k :: 0 <= j < k < |ordered| ==> ordered[j] <= ordered[k]
    requires pct / 100.0 * (|values| - 1) as real == i as real + w && 0.0 <= w < 1.0
    ensures |ordered| == |values| && i < |values| && (w > 0.0 ==> i + 1 < |values|)
    ensures Percentile(values, pct) ==
      Some(if w > 0.0 then ordered[i] * (1.0 - w) + ordered[i + 1] * w else ordered[i])
    ensures Percentile([], pct) == None
  {
    SortSorts(values);
    SortedIsUnique(Sort(values), ordered);
    var p := Position(|values|, pct);
    WholeAndFraction(p, i, w);
    if i + 1 < |values| {
      BlendExactly(ordered[i], ordered[i + 1], w);
    }
  }

  predicate Dominated(s: seq<real>, t: seq<real>) { |s| == |t| && forall i :: 0 <= i < |s| ==> s[i] <= t[i] }

  lemma DominatedCons(a: real, b: real, s: seq<real>, t: seq<real>)
    requires a <= b && Dominated(s, t)
    ensures Dominated([a] + s, [b] + t)
  {}

  /** Inserting puts the lesser of `x` and the head first and inserts the greater into the tail. */
  lemma InsertSwaps(x: real, s: seq<real>)
    requires s != [] && Sorted(s)
    ensures Insert(x, s) == if x <= s[0] then [x] + Insert(s[0], s[1..]) else [s[0]] + Insert(x, s[1..])
  {
    if x <= s[0] {
      assert Insert(s[0], s[1..]) == s;
    }
  }

  lemma {:induction false} InsertDominated(x: real, y: real, s: seq<real>, t: seq<real>)
    requires x <= y && Sorted(s) && Sorted(t) && Dominated(s, t)
    ensures Dominated(Insert(x, s), Insert(y, t))
    decreases |s|
  {
    if s != [] {
      var a := if x <= s[0] then s[0] else x;
      var b := if y <= t[0] then t[0] else y;
      InsertSwaps(x, s);
      InsertSwaps(y, t);
      InsertDominated(a, b, s[1..], t[1..]);
      DominatedCons(if x <= s[0] then x else s[0], if y <= t[0] then y else t[0], Insert(a, s[1..]), Insert(b, t[1..]));
    }
  }

  /** Sorting keeps domination, although it may permute the two lists differently. */
  lemma {:induction false} SortDominated(s: seq<real>, t: seq<real>)
    requires Dominated(s, t)
    ensures Dominated(Sort(s), Sort(t))
  {
    if s != [] {
      SortDominated(s[1..], t[1..]);
      SortSorts(s[1..]);
      SortSorts(t[1..]);
      InsertDominated(s[0], t[0], Sort(s[1..]), Sort(t[1..]));
    }
  }

  lemma SlowerSamplesRaisePercentiles(a: seq<real>, b: seq<real>, pct: real)
    requires Dominated(a, b) && a != [] && 0.0 <= pct <= 100.0
    ensures Percentile(a, pct).value <= Percentile(b, pct).value
  {
    SortDominated(a, b);
    SortSorts(a);
    AtDominated(Sort(a), Sort(b), Position(|a|, pct));
  }
}
