/** The two interpolated quantiles: `quantile` of the fresh analysis and the independently
    written `percentile` of the verifier (before its rounding). */
module Quantile {
  import opened Options
  import opened Sequences
  import opened Ranks

  function Sorted(values: seq<real>): (w: seq<real>)
    ensures |w| == |values|
  {
    if values == [] then []
    else
      var w := Sorted(values[1..]);
      Inserted(w, Place(w, values[0]), values[0])
  }

  function Ceiling(x: real): int {
    if x == x.Floor as real then x.Floor else x.Floor + 1
  }

  /** The point a fraction t of the way from a to b. */
  function Mix(a: real, b: real, t: real): real {
    a + (b - a) * t
  }

  /** v[lo] + (v[hi] - v[lo]) * (rank - lo), with lo and hi the floor and ceiling of rank. */
  function Interpolate(v: seq<real>, rank: real): real
    requires v != [] && 0.0 <= rank <= (|v| - 1) as real
  {
    var lo, hi := rank.Floor, Ceiling(rank);
    Mix(v[lo], v[hi], rank - lo as real)
  }

  function RankOf(n: nat, q: real): (rank: real)
    requires n > 0 && 0.0 <= q <= 1.0
    ensures 0.0 <= rank <= (n - 1) as real
  {
    RankRange((n - 1) as real, q);
    (n - 1) as real * q
  }

  lemma RankRange(a: real, q: real)
    requires a >= 0.0 && 0.0 <= q <= 1.0
    ensures 0.0 <= a * q <= a
  {
    assert a * (1.0 - q) >= 0.0;
  }

  function QuantileOf(values: seq<real>, q: real): Option<real>
    requires 0.0 <= q <= 1.0
  {
    if values == [] then None else Some(Interpolate(Sorted(values), RankOf(|values|, q)))
  }

  /** The verifier's own form of the same point. */
  function Weighted(a: real, b: real, t: real): real {
    a * (1.0 - t) + b * t
  }

  function WeightedAt(v: seq<real>, position: real): real
    requires v != [] && 0.0 <= position <= (|v| - 1) as real
  {
    var left := position.Floor;
    var right := if left + 1 < |v| - 1 then left + 1 else |v| - 1;
    Weighted(v[left], v[right], position - left as real)
  }

  function PositionOf(n: nat, fraction: real): (position: real)
    requires n > 0 && 0.0 <= fraction <= 1.0
    ensures 0.0 <= position <= (n - 1) as real
  {
    RankRange((n - 1) as real, fraction);
    (n - 1) as real * fraction
  }

  function Percentile(values: seq<real>, fraction: real): Option<real>
    requires 0.0 <= fraction <= 1.0
  {
    if values == [] then None
    else
      Some(WeightedAt(Sorted(values), PositionOf(|values|, fraction)))
  }

  lemma InterpolateIsWeighted(v: seq<real>, rank: real)
    requires v != [] && 0.0 <= rank <= (|v| - 1) as real
    ensures Interpolate(v, rank) == WeightedAt(v, rank)
  {
    hide Mix, Weighted;
    var lo := rank.Floor;
    var right := if lo + 1 < |v| - 1 then lo + 1 else |v| - 1;
    var t := rank - lo as real;
    MixForms(v[lo], v[right], t);
    MixForms(v[lo], v[Ceiling(rank)], t);
    assert t == 0.0 || Ceiling(rank) == right;
  }

  /** The two formulas agree on every list and fraction. */
  lemma QuantileIsPercentile(values: seq<real>, q: real)
    requires 0.0 <= q <= 1.0
    ensures QuantileOf(values, q) == Percentile(values, q)
  {
    hide Sorted, Interpolate, WeightedAt;
    if values != [] {
      var v := Sorted(values);
      RankIs(|v|, q);
      assert QuantileOf(values, q) == Some(Interpolate(v, RankOf(|v|, q)));
      InterpolateIsWeighted(v, RankOf(|v|, q));
      assert PositionOf(|v|, q) == RankOf(|v|, q);
      assert Percentile(values, q) == Some(WeightedAt(v, PositionOf(|v|, q)));
    }
  }

  lemma MixForms(a: real, b: real, t: real)
    ensures Mix(a, b, t) == Weighted(a, b, t)
    ensures t == 0.0 ==> Mix(a, b, t) == a
  {
    assert a * (1.0 - t) == a - a * t;
    assert (b - a) * t == b * t - a * t;
  }

  // ---- sorting ----

  lemma {:induction false} SortedAscending(values: seq<real>)
    ensures Ascending(Sorted(values))
  {
    if values != [] {
      hide Ascending;
      SortedAscending(values[1..]);
      InsertAscending(Sorted(values[1..]), values[0]);
    } 
  }

  lemma {:induction false} SortedPermutes(values: seq<real>)
    ensures multiset(Sorted(values)) == multiset(values)
  {
    if values != [] {
      hide Inserted;
      SortedPermutes(values[1..]);
      InsertedBag(Sorted(values[1..]), Place(Sorted(values[1..]), values[0]), values[0]);
      FirstBag(values);
    }
  }

  lemma InsertedBag(w: seq<real>, p: nat, x: real)
    requires p <= |w|
    ensures multiset(Inserted(w, p, x)) == multiset(w) + multiset{x}
  {
    assert w == w[..p] + w[p..];
  }

  lemma FirstBag(v: seq<real>)
    requires v != []
    ensures multiset(v) == multiset(v[1..]) + multiset{v[0]}
  {
    assert v == [v[0]] + v[1..];
  }

  lemma {:induction false} AscendingUnique(v: seq<real>, w: seq<real>)
    requires Ascending(v) && Ascending(w) && multiset(v) == multiset(w)
    ensures v == w
  {
    if v == [] {
      EmptyBag<real>(w);
    } else if w == [] {
      EmptyBag<real>(v);
    } else {
      LeastFirst(v, w);
      LeastFirst(w, v);
      FirstBag(v);
      FirstBag(w);
      assert multiset(v[1..]) == multiset(v) - multiset{v[0]} == multiset(w[1..]);
      AscendingUnique(v[1..], w[1..]);
    }
  }

  lemma LeastFirst(v: seq<real>, w: seq<real>)
    requires v != [] && w != [] && Ascending(w) && multiset(v) == multiset(w)
    ensures w[0] <= v[0]
  {
    assert v[0] in multiset(w);
  }

  /** The order in which values were recorded does not matter. */
  lemma QuantileIgnoresOrder(a: seq<real>, b: seq<real>, q: real)
    requires multiset(a) == multiset(b) && 0.0 <= q <= 1.0
    ensures QuantileOf(a, q) == QuantileOf(b, q)
  {
    if a == [] {
      EmptyBag<real>(b);
    } else if b == [] {
      EmptyBag<real>(a);
    } else {
      SortedAscending(a);
      SortedAscending(b);
      SortedPermutes(a);
      SortedPermutes(b);
      AscendingUnique(Sorted(a), Sorted(b));
    }
  }

  // ---- monotonicity and bounds ----

  /** The interpolated value lies between the order statistics on either side of its rank. */
  lemma InterpolateBetween(v: seq<real>, rank: real)
    requires v != [] && Ascending(v) && 0.0 <= rank <= (|v| - 1) as real
    ensures v[rank.Floor] <= Interpolate(v, rank) <= v[Ceiling(rank)]
  {
    hide Mix;
    var lo, hi := rank.Floor, Ceiling(rank);
    assert v[lo] <= v[hi];
    MixBetween(v[lo], v[hi], rank - lo as real);
  }

  lemma MixBetween(a: real, b: real, t: real)
    requires a <= b && 0.0 <= t <= 1.0
    ensures a <= Mix(a, b, t) <= b
  {
    MixMonotone(a, b, 0.0, t);
    MixMonotone(a, b, t, 1.0);
    assert Mix(a, b, 0.0) == a && Mix(a, b, 1.0) == b;
  }

  lemma MixMonotone(a: real, b: real, t: real, u: real)
    requires a <= b && t <= u
    ensures Mix(a, b, t) <= Mix(a, b, u)
  {
    Slope(b - a, t, u);
  }

  lemma InterpolateMonotone(v: seq<real>, r: real, s: real)
    requires v != [] && Ascending(v) && 0.0 <= r <= s <= (|v| - 1) as real
    ensures Interpolate(v, r) <= Interpolate(v, s)
  {
    hide Mix;
    InterpolateBetween(v, r);
    InterpolateBetween(v, s);
    var lo := r.Floor;
    if lo < s.Floor {
      assert v[Ceiling(r)] <= v[s.Floor];
    } else if r > lo as real {
      assert v[lo] <= v[lo + 1];
      MixMonotone(v[lo], v[lo + 1], r - lo as real, s - lo as real);
    } else {
      MixForms(v[lo], v[lo], 0.0);
    }
  }

  lemma Slope(d: real, t: real, u: real)
    requires d >= 0.0 && t <= u
    ensures d * t <= d * u
  {
    assert d * (u - t) >= 0.0;
  }

  /** A larger fraction never gives a smaller quantile. */
  lemma QuantileMonotone(values: seq<real>, p: real, q: real)
    requires values != [] && 0.0 <= p <= q <= 1.0
    ensures QuantileOf(values, p).value <= QuantileOf(values, q).value
  {
    hide Interpolate, Sorted;
    SortedAscending(values);
    RankMonotone(|values|, p, q);
    InterpolateMonotone(Sorted(values), RankOf(|values|, p), RankOf(|values|, q));
  }

  lemma RankMonotone(n: nat, p: real, q: real)
    requires n > 0 && 0.0 <= p <= q <= 1.0
    ensures RankOf(n, p) <= RankOf(n, q)
  {
    Slope((n - 1) as real, p, q);
  }

  /** A quantile is bracketed by members of the list, so any bound on all of them bounds it. */
  lemma QuantileBounds(values: seq<real>, q: real, low: real, high: real)
    requires values != [] && 0.0 <= q <= 1.0
    requires forall i :: 0 <= i < |values| ==> low <= values[i] <= high
    ensures low <= QuantileOf(values, q).value <= high
  {
    hide Interpolate, Sorted, RankOf;
    var v := Sorted(values);
    SortedAscending(values);
    SortedPermutes(values);
    InterpolateBetween(v, RankOf(|v|, q));
    forall i | 0 <= i < |v|
      ensures low <= v[i] <= high
    {
      assert v[i] in multiset(values);
    }
  }

  // ---- the value itself ----

  lemma InterpolateAt(w: seq<real>, rank: real, k: nat, t: real)
    requires k + 1 < |w| && 0.0 <= t <= 1.0 && rank == k as real + t
    ensures Interpolate(w, rank) == w[k] + (w[k + 1] - w[k]) * t
  {
    if t == 1.0 {
      assert rank.Floor == k + 1;
      MixForms(w[k + 1], w[k + 1], 0.0);
      assert w[k] + (w[k + 1] - w[k]) * 1.0 == w[k + 1];
    } else {
      assert rank.Floor == k;
      if t == 0.0 {
        MixForms(w[k], w[k], 0.0);
        assert w[k] + (w[k + 1] - w[k]) * 0.0 == w[k];
      }
    }
  }

  /** Over any sorted arrangement w of n values, the quantile at q = (k + t) / (n - 1) is the point a
      fraction t of the way from w[k] to w[k + 1]; this covers every q. */
  lemma QuantileExact(values: seq<real>, w: seq<real>, q: real, k: nat, t: real)
    requires 0.0 <= q <= 1.0 && Ascending(w) && multiset(w) == multiset(values)
    requires k + 1 < |w| && 0.0 <= t <= 1.0 && (|w| - 1) as real * q == k as real + t
    ensures QuantileOf(values, q) == Some(w[k] + (w[k + 1] - w[k]) * t)
  {
    hide Sorted, Interpolate, Ascending;
    SortedAscending(values);
    SortedPermutes(values);
    assert |multiset(w)| == |multiset(values)|;
    AscendingUnique(Sorted(values), w);
    RankIs(|w|, q);
    InterpolateAt(w, RankOf(|w|, q), k, t);
  }

  lemma RankIs(n: nat, q: real)
    requires n > 0 && 0.0 <= q <= 1.0
    ensures RankOf(n, q) == (n - 1) as real * q
  {}
}
