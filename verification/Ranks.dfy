/** Midranks: the doubled, tie-averaged ranks computed by `ranks`, and the identities
    that tie their sums to pairwise comparisons. All ranks are doubled, so that the
    half ranks of ties are integers. */
module Ranks {
  import opened Selection

  /** 2 when x is larger, 1 on a tie, 0 when x is smaller. */
  function Score(x: real, y: real): int {
    if x > y then 2 else if x == y then 1 else 0
  }

  function ScoreSum(x: real, ys: seq<real>): int {
    if ys == [] then 0 else Score(x, ys[0]) + ScoreSum(x, ys[1..])
  }

  function PairScore(xs: seq<real>, ys: seq<real>): int {
    if xs == [] then 0 else ScoreSum(xs[0], ys) + PairScore(xs[1..], ys)
  }

  function CountBelow(ys: seq<real>, x: real): nat {
    if ys == [] then 0 else (if ys[0] < x then 1 else 0) + CountBelow(ys[1..], x)
  }

  function CountAbove(ys: seq<real>, x: real): nat {
    if ys == [] then 0 else (if ys[0] > x then 1 else 0) + CountAbove(ys[1..], x)
  }

  function CountEqual(ys: seq<real>, x: real): nat {
    if ys == [] then 0 else (if ys[0] == x then 1 else 0) + CountEqual(ys[1..], x)
  }

  /** Doubled midranks of the values xs inside a pool. */
  function RanksIn(xs: seq<real>, pool: seq<real>): (r: seq<int>)
    ensures |r| == |xs|
  {
    seq(|xs|, i requires 0 <= i < |xs| => ScoreSum(xs[i], pool) + 1)
  }

  function MidRanks(values: seq<real>): (r: seq<int>)
    ensures |r| == |values|
  {
    RanksIn(values, values)
  }

  /** A doubled midrank is twice the number of smaller values plus the number of equal ones plus one. */
  lemma {:induction false} ScoreSumCounts(x: real, ys: seq<real>)
    ensures ScoreSum(x, ys) == 2 * CountBelow(ys, x) + CountEqual(ys, x)
    ensures CountBelow(ys, x) + CountEqual(ys, x) + CountAbove(ys, x) == |ys|
  {
    if ys != [] { ScoreSumCounts(x, ys[1..]); }
  }

  lemma {:induction false} ScoreSumAppend(x: real, ys: seq<real>, zs: seq<real>)
    ensures ScoreSum(x, ys + zs) == ScoreSum(x, ys) + ScoreSum(x, zs)
  {
    if ys == [] {
      assert ys + zs == zs;
    } else {
      assert (ys + zs)[1..] == ys[1..] + zs;
      ScoreSumAppend(x, ys[1..], zs);
    }
  }

  lemma {:induction false} ScoreSumMonotone(x: real, y: real, zs: seq<real>)
    requires x <= y
    ensures ScoreSum(x, zs) <= ScoreSum(y, zs)
  {
    if zs != [] { ScoreSumMonotone(x, y, zs[1..]); }
  }

  lemma {:induction false} PairScoreAppendLeft(xs: seq<real>, ys: seq<real>, zs: seq<real>)
    ensures PairScore(xs + ys, zs) == PairScore(xs, zs) + PairScore(ys, zs)
  {
    if xs == [] {
      assert xs + ys == ys;
    } else {
      assert (xs + ys)[1..] == xs[1..] + ys;
      PairScoreAppendLeft(xs[1..], ys, zs);
    }
  }

  lemma {:induction false} PairScoreAppendRight(xs: seq<real>, ys: seq<real>, zs: seq<real>)
    ensures PairScore(xs, ys + zs) == PairScore(xs, ys) + PairScore(xs, zs)
  {
    if xs != [] {
      ScoreSumAppend(xs[0], ys, zs);
      PairScoreAppendRight(xs[1..], ys, zs);
    }
  }

  /** Comparing one value with all of xs, from both sides. */
  lemma {:induction false} PairScoreSingle(xs: seq<real>, y: real)
    ensures PairScore(xs, [y]) + ScoreSum(y, xs) == 2 * |xs|
  {
    if xs != [] {
      assert ScoreSum(xs[0], [y]) == Score(xs[0], y);
      PairScoreSingle(xs[1..], y);
    }
  }

  /** Every pair is shared out between the two sides. */
  lemma {:induction false} PairScoreSwap(xs: seq<real>, ys: seq<real>)
    ensures PairScore(xs, ys) + PairScore(ys, xs) == 2 * |xs| * |ys|
  {
    if ys == [] {
      PairScoreEmpty(xs);
    } else {
      PairScoreSingle(xs, ys[0]);
      assert ys == [ys[0]] + ys[1..];
      PairScoreAppendRight(xs, [ys[0]], ys[1..]);
      PairScoreSwap(xs, ys[1..]);
      assert 2 * |xs| * |ys| == 2 * |xs| * (|ys| - 1) + 2 * |xs|;
    }
  }

  lemma {:induction false} PairScoreEmpty(xs: seq<real>)
    ensures PairScore(xs, []) == 0
  {
    if xs != [] { PairScoreEmpty(xs[1..]); }
  }

  lemma PairScoreSelf(xs: seq<real>)
    ensures PairScore(xs, xs) == |xs| * |xs|
  {
    PairScoreSwap(xs, xs);
  }

  lemma {:induction false} PairScoreBounds(xs: seq<real>, ys: seq<real>)
    ensures 0 <= PairScore(xs, ys) <= 2 * |xs| * |ys|
  {
    if xs == [] {
    } else {
      ScoreSumCounts(xs[0], ys);
      PairScoreBounds(xs[1..], ys);
      assert 2 * |xs| * |ys| == 2 * (|xs| - 1) * |ys| + 2 * |ys|;
    }
  }

  // ---- sums of ranks ----

  /** The values at the selected positions. */
  function Pick(v: seq<real>, m: Mask): seq<real>
    requires |v| == |m|
  {
    if v == [] then [] else (if m[0] then [v[0]] else []) + Pick(v[1..], m[1..])
  }

  lemma {:induction false} PickLength(v: seq<real>, m: Mask)
    requires |v| == |m|
    ensures |Pick(v, m)| == Ones(m)
  {
    if v != [] { PickLength(v[1..], m[1..]); }
  }

  lemma {:induction false} PickMembers(v: seq<real>, m: Mask, x: real)
    requires |v| == |m|
    ensures x in Pick(v, m) <==> exists i :: 0 <= i < |v| && m[i] && v[i] == x
  {
    if v != [] {
      PickMembers(v[1..], m[1..], x);
      if x in Pick(v, m) && !(m[0] && v[0] == x) {
        var i :| 0 <= i < |v[1..]| && m[1..][i] && v[1..][i] == x;
        assert m[i + 1] && v[i + 1] == x;
      }
      if i :| 0 <= i < |v| && m[i] && v[i] == x {
        if i > 0 { assert m[1..][i - 1] && v[1..][i - 1] == x; }
      }
    }
  }

  lemma {:induction false} ScoreSumSplit(x: real, v: seq<real>, m: Mask)
    requires |v| == |m|
    ensures ScoreSum(x, v) == ScoreSum(x, Pick(v, m)) + ScoreSum(x, Pick(v, Complement(m)))
  {
    if v != [] {
      var c := Complement(m);
      assert c[1..] == Complement(m[1..]);
      ScoreSumSplit(x, v[1..], m[1..]);
      ScoreSumAppend(x, if m[0] then [v[0]] else [], Pick(v[1..], m[1..]));
      ScoreSumAppend(x, if c[0] then [v[0]] else [], Pick(v[1..], c[1..]));
      assert ScoreSum(x, [v[0]]) == Score(x, v[0]);
    }
  }

  lemma {:induction false} PairScoreSplit(xs: seq<real>, v: seq<real>, m: Mask)
    requires |v| == |m|
    ensures PairScore(xs, v) == PairScore(xs, Pick(v, m)) + PairScore(xs, Pick(v, Complement(m)))
  {
    if xs != [] {
      ScoreSumSplit(xs[0], v, m);
      PairScoreSplit(xs[1..], v, m);
    }
  }

  lemma {:induction false} RankSumPairs(xs: seq<real>, pool: seq<real>, m: Mask)
    requires |xs| == |m|
    ensures SumAt(RanksIn(xs, pool), m) == PairScore(Pick(xs, m), pool) + Ones(m)
  {
    if xs != [] {
      assert RanksIn(xs, pool)[1..] == RanksIn(xs[1..], pool);
      RankSumPairs(xs[1..], pool, m[1..]);
      if m[0] {
        assert Pick(xs, m)[1..] == Pick(xs[1..], m[1..]);
      } else {
        assert Pick(xs, m) == Pick(xs[1..], m[1..]);
      }
    }
  }

  /** The rank sum of any selection: what its size alone gives, plus its wins over the rest. */
  lemma RankSumIdentity(v: seq<real>, m: Mask)
    requires |v| == |m|
    ensures SumAt(MidRanks(v), m) ==
            Ones(m) * (Ones(m) + 1) + PairScore(Pick(v, m), Pick(v, Complement(m)))
  {
    hide Pick, PairScore, SumAt, Ones, Complement, RanksIn;
    var picked := Pick(v, m);
    RankSumPairs(v, v, m);
    PairScoreSplit(picked, v, m);
    PairScoreSelf(picked);
    PickLength(v, m);
  }

  lemma {:induction false} SumOfAll(r: seq<int>)
    ensures SumAt(r, seq(|r|, _ => true)) == Sum(r)
  {
    if r != [] {
      assert seq(|r|, _ => true)[1..] == seq(|r| - 1, _ => true);
      SumOfAll(r[1..]);
    }
  }

  lemma {:induction false} PickAll(v: seq<real>)
    ensures Pick(v, seq(|v|, _ => true)) == v
  {
    if v != [] {
      assert seq(|v|, _ => true)[1..] == seq(|v| - 1, _ => true);
      PickAll(v[1..]);
    }
  }

  /** Midranks of N values always total N(N+1)/2, ties or not. */
  lemma RankTotal(v: seq<real>)
    ensures Sum(MidRanks(v)) == |v| * (|v| + 1)
  {
    var all := seq(|v|, _ => true);
    SumOfAll(MidRanks(v));
    RankSumPairs(v, v, all);
    PickAll(v);
    PickLength(v, all);
    PairScoreSelf(v);
  }

  // ---- the algorithm ----

  /** Where x belongs in an ascending list: behind every value that is not larger. */
  function Place(w: seq<real>, x: real): (p: nat)
    ensures p <= |w|
    ensures p > 0 ==> w[p - 1] <= x
    ensures forall k :: p <= k < |w| ==> x < w[k]
  {
    if w == [] || w[|w| - 1] <= x then |w| else Place(w[..|w| - 1], x)
  }

  /** The values in the order in which `order` visits them. */
  function Visited(values: seq<real>, order: seq<nat>): (r: seq<real>)
    requires forall k :: 0 <= k < |order| ==> order[k] < |values|
    ensures |r| == |order|
  {
    seq(|order|, k requires 0 <= k < |order| => values[order[k]])
  }

  /** Positions ordered by value, equal values in their original order: sorted(range(n), key=...). */
  function Order(values: seq<real>, n: nat): (order: seq<nat>)
    requires n <= |values|
    ensures |order| == n && forall k :: 0 <= k < n ==> order[k] < n
  {
    if n == 0 then [] else
      var before := Order(values, n - 1);
      var p := Place(Visited(values, before), values[n - 1]);
      before[..p] + [n - 1] + before[p..]
  }

  predicate Ascending(s: seq<real>) {
    forall i, j :: 0 <= i <= j < |s| ==> s[i] <= s[j]
  }

  lemma OrderInsert(values: seq<real>, n: nat)
    requires 0 < n <= |values|
    ensures var before := Order(values, n - 1);
            Order(values, n) == Inserted<nat>(before, Place(Visited(values, before), values[n - 1]), n - 1)
  {}

  function Inserted<T>(s: seq<T>, p: nat, x: T): (r: seq<T>)
    requires p <= |s|
    ensures |r| == |s| + 1
  {
    s[..p] + [x] + s[p..]
  }

  lemma VisitedInserted(values: seq<real>, order: seq<nat>, p: nat, i: nat)
    requires p <= |order| && i < |values| && forall k :: 0 <= k < |order| ==> order[k] < |values|
    ensures Visited(values, Inserted(order, p, i)) == Inserted(Visited(values, order), p, values[i])
  {
    var r, w := Inserted(order, p, i), Visited(values, order);
    forall k | 0 <= k < |r|
      ensures Visited(values, r)[k] == Inserted(w, p, values[i])[k]
    {
      if k > p { assert r[k] == order[k - 1]; }
    }
  }

  /** What one insertion does to the visited values. */
  lemma VisitedInsert(values: seq<real>, n: nat)
    requires 0 < n <= |values|
    ensures var w := Visited(values, Order(values, n - 1));
            Visited(values, Order(values, n)) == Inserted(w, Place(w, values[n - 1]), values[n - 1])
  {
    hide Order, Visited;
    OrderInsert(values, n);
    var before := Order(values, n - 1);
    VisitedInserted(values, before, Place(Visited(values, before), values[n - 1]), n - 1);
  }

  lemma InsertAscending(w: seq<real>, x: real)
    requires Ascending(w)
    ensures Ascending(Inserted(w, Place(w, x), x))
  {
    var p := Place(w, x);
    var r := Inserted(w, p, x);
    forall i, j | 0 <= i < j < |r|
      ensures r[i] <= r[j]
    {
      assert i < p ==> r[i] == w[i] && w[i] <= w[p - 1];
      assert p < j ==> r[j] == w[j - 1];
      assert p < i ==> r[i] == w[i - 1];
      assert j < p ==> r[j] == w[j];
    }
  }

  lemma InsertScore(w: seq<real>, p: nat, y: real, x: real)
    requires p <= |w|
    ensures ScoreSum(x, Inserted(w, p, y)) == ScoreSum(x, w) + Score(x, y)
  {
    assert ScoreSum(x, [y]) == Score(x, y);
    hide ScoreSum;
    assert w == w[..p] + w[p..];
    ScoreSumAppend(x, w[..p], w[p..]);
    ScoreSumAppend(x, w[..p] + [y], w[p..]);
    ScoreSumAppend(x, w[..p], [y]);
  }

  lemma InsertDistinct<T>(s: seq<T>, p: nat, x: T)
    requires p <= |s| && NoDuplicates(s) && x !in s
    ensures NoDuplicates(Inserted(s, p, x))
    ensures forall y :: y in Inserted(s, p, x) <==> y in s || y == x
  {
    assert s == s[..p] + s[p..];
  }

  /** Order sorts. */
  lemma {:induction false} OrderAscending(values: seq<real>, n: nat)
    requires n <= |values|
    ensures Ascending(Visited(values, Order(values, n)))
  {
    hide Order, Visited;
    if n > 0 {
      OrderAscending(values, n - 1);
      VisitedInsert(values, n);
      InsertAscending(Visited(values, Order(values, n - 1)), values[n - 1]);
    }
  }

  /** Order visits every position once. */
  lemma {:induction false} OrderPermutes(values: seq<real>, n: nat)
    requires n <= |values|
    ensures NoDuplicates<nat>(Order(values, n))
    ensures forall k: nat :: k in Order(values, n) <==> k < n
  {
    hide Order, NoDuplicates, Inserted, Visited;
    if n > 0 {
      OrderPermutes(values, n - 1);
      OrderInsert(values, n);
      var before := Order(values, n - 1);
      InsertDistinct<nat>(before, Place(Visited(values, before), values[n - 1]), n - 1);
    } else {
      EmptyDistinct<nat>(Order(values, 0));
    }
  }

  lemma EmptyDistinct<T>(s: seq<T>)
    requires |s| == 0
    ensures NoDuplicates(s)
  {}

  /** Reordering does not change comparisons. */
  lemma {:induction false} OrderScore(values: seq<real>, n: nat, x: real)
    requires n <= |values|
    ensures ScoreSum(x, Visited(values, Order(values, n))) == ScoreSum(x, values[..n])
  {
    hide Order, Visited, Inserted, ScoreSum;
    if n > 0 {
      OrderScore(values, n - 1, x);
      VisitedInsert(values, n);
      var w, y := Visited(values, Order(values, n - 1)), values[n - 1];
      InsertScore(w, Place(w, y), y, x);
      InsertScore(values[..n - 1], n - 1, y, x);
      InsertedAtEnd(values, n);
    } else {
      assert Visited(values, Order(values, 0)) == values[..0];
    }
  }

  lemma InsertedAtEnd(values: seq<real>, n: nat)
    requires 0 < n <= |values|
    ensures values[..n] == Inserted(values[..n - 1], n - 1, values[n - 1])
  {}

  lemma {:induction false} ScoreConstant(x: real, ys: seq<real>, s: int)
    requires forall k :: 0 <= k < |ys| ==> Score(x, ys[k]) == s
    ensures ScoreSum(x, ys) == s * |ys|
  {
    if ys != [] { ScoreConstant(x, ys[1..], s); }
  }

  lemma ScoreSum3(x: real, low: seq<real>, same: seq<real>, high: seq<real>)
    requires forall k :: 0 <= k < |low| ==> low[k] < x
    requires forall k :: 0 <= k < |same| ==> same[k] == x
    requires forall k :: 0 <= k < |high| ==> x < high[k]
    ensures ScoreSum(x, low + (same + high)) == 2 * |low| + |same|
  {
    hide ScoreSum;
    ScoreSumAppend(x, low, same + high);
    ScoreSumAppend(x, same, high);
    ScoreConstant(x, low, 2);
    ScoreConstant(x, same, 1);
    ScoreConstant(x, high, 0);
  }

  lemma GroupBounds(w: seq<real>, i: nat, j: nat, k: nat)
    requires i <= j < |w| && k < |w| && Ascending(w) && w[j] == w[i]
    requires i > 0 ==> w[i - 1] < w[i]
    requires j + 1 < |w| ==> w[j] < w[j + 1]
    ensures k < i ==> w[k] < w[i]
    ensures i <= k <= j ==> w[k] == w[i]
    ensures j < k ==> w[i] < w[k]
  {
    assert k < i ==> w[k] <= w[i - 1];
    assert j < k ==> w[j + 1] <= w[k];
  }

  lemma Split3<T>(w: seq<T>, i: nat, j: nat)
    requires i <= j < |w|
    ensures w == w[..i] + (w[i..j + 1] + w[j + 1..])
  {}

  /** The score of a value that fills exactly positions i..j of a sorted list. */
  lemma GroupScore(w: seq<real>, i: nat, j: nat)
    requires i <= j < |w| && Ascending(w) && w[j] == w[i]
    requires i > 0 ==> w[i - 1] < w[i]
    requires j + 1 < |w| ==> w[j] < w[j + 1]
    ensures ScoreSum(w[i], w) == i + j + 1
  {
    hide ScoreSum, Ascending;
    var low, same, high := w[..i], w[i..j + 1], w[j + 1..];
    forall k | 0 <= k < |low| ensures low[k] < w[i] { GroupBounds(w, i, j, k); }
    forall k | 0 <= k < |same| ensures same[k] == w[i] { GroupBounds(w, i, j, i + k); }
    forall k | 0 <= k < |high| ensures w[i] < high[k] { GroupBounds(w, i, j, j + 1 + k); }
    ScoreSum3(w[i], low, same, high);
    Split3(w, i, j);
  }

  /** The doubled rank shared by the group at positions i..j of the sorted order. */
  lemma GroupRank(values: seq<real>, i: nat, j: nat, k: nat)
    requires i <= k <= j < |values|
    requires var w := Visited(values, Order(values, |values|));
             w[j] == w[i] && (i > 0 ==> w[i - 1] < w[i]) && (j + 1 < |w| ==> w[j] < w[j + 1])
    ensures MidRanks(values)[Order(values, |values|)[k]] == i + j + 2
  {
    hide Order, ScoreSum;
    var order := Order(values, |values|);
    var w := Visited(values, order);
    OrderAscending(values, |values|);
    GroupScore(w, i, j);
    OrderScore(values, |values|, w[i]);
    assert values[..|values|] == values;
    assert w[i] <= w[k] <= w[j];
    assert w[k] == values[order[k]];
  }

  /** Doubled midranks, computed group by group along the sorted order. */
  method Ranks(values: seq<real>) returns (result: seq<int>)
    ensures result == MidRanks(values)
  {
    hide Order, MidRanks;
    var n := |values|;
    var order := Order(values, n);
    OrderAscending(values, n);
    OrderPermutes(values, n);
    ghost var w := Visited(values, order);
    result := seq(n, _ => 0);
    var i := 0;
    while i < n
      invariant 0 <= i <= n && |result| == n
      invariant 0 < i < n ==> w[i - 1] < w[i]
      invariant forall k :: 0 <= k < i ==> result[order[k]] == MidRanks(values)[order[k]]
    {
      var j := i;
      while j + 1 < n && values[order[j + 1]] == values[order[i]]
        invariant i <= j < n && w[j] == w[i]
      {
        j := j + 1;
      }
      assert j + 1 < n ==> w[j] <= w[j + 1];
      for k := i to j + 1
        invariant |result| == n
        invariant forall p :: 0 <= p < k ==> result[order[p]] == MidRanks(values)[order[p]]
      {
        GroupRank(values, i, j, k);
        result := result[order[k] := i + j + 2];
      }
      i := j + 1;
    }
    forall p | 0 <= p < n
      ensures result[p] == MidRanks(values)[p]
    {
      assert p in order;
    }
  }
}
