/** The exact Wilcoxon signed-rank test. */
module Wilcoxon {
  import opened Selection
  import opened Ranks
  import opened MannWhitney

  /** w2 is twice the statistic w_plus; the unrounded p_two_sided is extreme / assignments. */
  datatype SignedOutcome = SignedOutcome(w2: int, nonzero: nat, extreme: nat, assignments: nat, positive: nat)

  /** [b - a for a, b in zip(x, y) if b != a] */
  function Differences(x: seq<real>, y: seq<real>): (d: seq<real>)
    ensures forall i :: 0 <= i < |d| ==> d[i] != 0.0
  {
    if x == [] || y == [] then []
    else (if y[0] != x[0] then [y[0] - x[0]] else []) + Differences(x[1..], y[1..])
  }

  function Magnitude(d: real): real {
    if d < 0.0 then -d else d
  }

  function Magnitudes(d: seq<real>): (r: seq<real>)
    ensures |r| == |d|
  {
    seq(|d|, i requires 0 <= i < |d| => Magnitude(d[i]))
  }

  function Signs(d: seq<real>): (m: Mask)
    ensures |m| == |d|
  {
    seq(|d|, i requires 0 <= i < |d| => d[i] > 0.0)
  }

  /** Quadrupled deviation of a sign assignment's rank sum from n(n+1)/4. */
  function SignDeviation(r: seq<int>, m: Mask): int
    requires |m| == |r|
  {
    2 * SumAt(r, m) - |r| * (|r| + 1)
  }

  /** abs(w - expected) >= abs(observed - expected) - 1e-9, from the quadrupled deviations. */
  predicate SignReaches(d: int, observed: int) {
    Abs(d) as real / 4.0 >= Abs(observed) as real / 4.0 - 0.000000001
  }

  function SignExtreme(r: seq<int>, observed: int): Mask -> bool {
    (m: Mask) => |m| == |r| && SignReaches(SignDeviation(r, m), observed)
  }

  function WilcoxonExact(x: seq<real>, y: seq<real>): SignedOutcome {
    var d := Differences(x, y);
    var r := MidRanks(Magnitudes(d));
    var signs := Product(|d|);
    SignedOutcome(SumAt(r, Signs(d)), |d|,
                  CountIf(signs, SignExtreme(r, SignDeviation(r, Signs(d)))), |signs|, Ones(Signs(d)))
  }

  lemma SignSlackIsExact(d: int, observed: int)
    ensures SignReaches(d, observed) <==> Abs(d) >= Abs(observed)
  {
    if Abs(d) < Abs(observed) {
      assert Abs(d) as real + 1.0 <= Abs(observed) as real;
    }
  }

  /** Flipping every sign reverses the deviation. */
  lemma ComplementSigns(v: seq<real>, m: Mask)
    requires |m| == |v|
    ensures SignDeviation(MidRanks(v), Complement(m)) == -SignDeviation(MidRanks(v), m)
  {
    hide SumAt, Sum, MidRanks;
    SumAtComplement(MidRanks(v), m);
    RankTotal(v);
  }

  /** Which sign assignments are counted. */
  predicate SignCounted(x: seq<real>, y: seq<real>, m: Mask) {
    var d := Differences(x, y);
    var r := MidRanks(Magnitudes(d));
    |m| == |d| && Abs(SignDeviation(r, m)) >= Abs(SignDeviation(r, Signs(d)))
  }

  function SignSet(x: seq<real>, y: seq<real>): set<Mask> {
    var d := Differences(x, y);
    var r := MidRanks(Magnitudes(d));
    Satisfying(Product(|d|), SignExtreme(r, SignDeviation(r, Signs(d))))
  }

  lemma SignMember(x: seq<real>, y: seq<real>, m: Mask)
    ensures m in SignSet(x, y) <==> SignCounted(x, y, m)
  {
    hide Product, MidRanks, SignDeviation, SignReaches, Abs, Differences, Magnitudes, Signs;
    var d := Differences(x, y);
    var r := MidRanks(Magnitudes(d));
    ProductMembers(|d|, m);
    if |m| == |r| {
      SignSlackIsExact(SignDeviation(r, m), SignDeviation(r, Signs(d)));
    }
  }

  lemma SignExtremeIsSize(x: seq<real>, y: seq<real>)
    ensures WilcoxonExact(x, y).extreme == |SignSet(x, y)|
  {
    hide Product, MidRanks, SignExtreme, CountIf, NoDuplicates, Satisfying, SignDeviation, Differences, Magnitudes;
    var d := Differences(x, y);
    var r := MidRanks(Magnitudes(d));
    ProductDistinct(|d|);
    CountIsSize(Product(|d|), SignExtreme(r, SignDeviation(r, Signs(d))));
  }

  /** With at least one nonzero difference the p-value is never below 2 / 2^n. */
  lemma SignedFloor(x: seq<real>, y: seq<real>)
    requires Differences(x, y) != []
    ensures WilcoxonExact(x, y).extreme >= 2
    ensures WilcoxonExact(x, y).assignments == Power2(WilcoxonExact(x, y).nonzero)
  {
    hide Product, MidRanks, SignDeviation, Magnitudes, Differences, SignSet, CountIf;
    var d := Differences(x, y);
    var o := Signs(d);
    ComplementSigns(Magnitudes(d), o);
    assert o[0] != Complement(o)[0];
    SignMember(x, y, o);
    SignMember(x, y, Complement(o));
    SignExtremeIsSize(x, y);
    TwoMembers(SignSet(x, y), o, Complement(o));
    ProductLength(|d|);
  }

  // ---- exchanging the samples ----

  lemma {:induction false} DifferencesSwap(x: seq<real>, y: seq<real>)
    ensures var d, e := Differences(x, y), Differences(y, x);
            |d| == |e| && forall i :: 0 <= i < |d| ==> e[i] == -d[i]
  {
    if x != [] && y != [] { DifferencesSwap(x[1..], y[1..]); }
  }

  lemma SwapParts(x: seq<real>, y: seq<real>)
    ensures Magnitudes(Differences(y, x)) == Magnitudes(Differences(x, y))
    ensures Signs(Differences(y, x)) == Complement(Signs(Differences(x, y)))
  {
    hide Differences;
    DifferencesSwap(x, y);
  }

  /** Exchanging the samples complements the positive differences, splits the rank total
      between the two statistics, and leaves the p-value alone. */
  lemma SignedSwap(x: seq<real>, y: seq<real>)
    ensures WilcoxonExact(x, y).extreme == WilcoxonExact(y, x).extreme
    ensures WilcoxonExact(x, y).assignments == WilcoxonExact(y, x).assignments
    ensures var n := WilcoxonExact(x, y).nonzero;
            && WilcoxonExact(x, y).w2 + WilcoxonExact(y, x).w2 == n * (n + 1)
            && WilcoxonExact(x, y).positive + WilcoxonExact(y, x).positive == n
  {
    hide MidRanks, Product, CountIf, Differences, Signs, Magnitudes, SumAt, Ones, SignSet, SignCounted;
    var v, o := Magnitudes(Differences(x, y)), Signs(Differences(x, y));
    SwapParts(x, y);
    DifferencesSwap(x, y);
    OnesComplement(o);
    SumAtComplement(MidRanks(v), o);
    RankTotal(v);
    SwapCounted(x, y);
    SignExtremeIsSize(x, y);
    SignExtremeIsSize(y, x);
  }

  lemma SwapCounted(x: seq<real>, y: seq<real>)
    ensures SignSet(x, y) == SignSet(y, x)
  {
    hide MidRanks, SignDeviation, Differences, Signs, Magnitudes, SignSet;
    var v, o := Magnitudes(Differences(x, y)), Signs(Differences(x, y));
    SwapParts(x, y);
    DifferencesSwap(x, y);
    ComplementSigns(v, o);
    forall m: Mask
      ensures m in SignSet(x, y) <==> m in SignSet(y, x)
    {
      SignMember(x, y, m);
      SignMember(y, x, m);
    }
  }

  // ---- what the statistic measures ----

  /** 2 for a positive pairwise sum, 1 for a zero one. */
  function WalshScore(x: real, y: real): int {
    Score(x + y, 0.0)
  }

  function WalshSum(x: real, ys: seq<real>): int {
    if ys == [] then 0 else WalshScore(x, ys[0]) + WalshSum(x, ys[1..])
  }

  /** Twice the number of positive pairwise sums d[i] + d[j], i <= j, counting zero sums half. */
  function WalshTotal(d: seq<real>): int {
    if d == [] then 0 else WalshScore(d[0], d[0]) + WalshSum(d[0], d[1..]) + WalshTotal(d[1..])
  }

  /** A positive difference's rank among others, and the others' ranks against it. */
  lemma PairOfRanks(x: real, y: real)
    requires x != 0.0 && y != 0.0
    ensures WalshScore(x, y) ==
            (if x > 0.0 then Score(Magnitude(x), Magnitude(y)) else 0) +
            (if y > 0.0 then Score(Magnitude(y), Magnitude(x)) else 0)
  {}

  /** The scores of the positive members of ds against one magnitude. */
  function PositiveAgainst(ds: seq<real>, z: real): int {
    if ds == [] then 0
    else (if ds[0] > 0.0 then Score(Magnitude(ds[0]), z) else 0) + PositiveAgainst(ds[1..], z)
  }

  lemma {:induction false} WalshSumIsRanks(x: real, ds: seq<real>)
    requires x != 0.0 && forall i :: 0 <= i < |ds| ==> ds[i] != 0.0
    ensures WalshSum(x, ds) ==
            (if x > 0.0 then ScoreSum(Magnitude(x), Magnitudes(ds)) else 0) + PositiveAgainst(ds, Magnitude(x))
  {
    if ds != [] {
      PairOfRanks(x, ds[0]);
      WalshSumIsRanks(x, ds[1..]);
      assert Magnitudes(ds)[1..] == Magnitudes(ds[1..]);
    }
  }

  /** SumAt over the signs, without the self term: positive magnitudes scored against a pool. */
  function PositiveScore(ds: seq<real>, pool: seq<real>): int {
    if ds == [] then 0
    else (if ds[0] > 0.0 then ScoreSum(Magnitude(ds[0]), pool) else 0) + PositiveScore(ds[1..], pool)
  }

  lemma {:induction false} PositiveScoreStep(ds: seq<real>, z: real, pool: seq<real>)
    ensures PositiveScore(ds, [z] + pool) == PositiveAgainst(ds, z) + PositiveScore(ds, pool)
  {
    if ds != [] {
      assert ([z] + pool)[1..] == pool;
      PositiveScoreStep(ds[1..], z, pool);
    }
  }

  lemma {:induction false} RankSumIsScore(ds: seq<real>, pool: seq<real>)
    ensures SumAt(RanksIn(Magnitudes(ds), pool), Signs(ds)) == PositiveScore(ds, pool) + Ones(Signs(ds))
  {
    if ds != [] {
      assert RanksIn(Magnitudes(ds), pool)[1..] == RanksIn(Magnitudes(ds[1..]), pool);
      assert Signs(ds)[1..] == Signs(ds[1..]);
      RankSumIsScore(ds[1..], pool);
    }
  }

  lemma {:induction false} WalshIsScore(ds: seq<real>)
    requires forall i :: 0 <= i < |ds| ==> ds[i] != 0.0
    ensures WalshTotal(ds) == PositiveScore(ds, Magnitudes(ds)) + Ones(Signs(ds))
  {
    if ds != [] {
      WalshIsScore(ds[1..]);
      WalshSumIsRanks(ds[0], ds[1..]);
      assert Magnitudes(ds) == [Magnitude(ds[0])] + Magnitudes(ds[1..]);
      PositiveScoreStep(ds[1..], Magnitude(ds[0]), Magnitudes(ds[1..]));
      assert Signs(ds)[1..] == Signs(ds[1..]);
      ScoreSumAppend(Magnitude(ds[0]), [Magnitude(ds[0])], Magnitudes(ds[1..]));
      assert ScoreSum(Magnitude(ds[0]), [Magnitude(ds[0])]) == 1;
    }
  }

  /** w_plus, computed from tie-averaged ranks, is the number of positive pairwise sums
      (pairs with repetition) plus half the zero ones. */
  lemma StatisticCountsWalshSums(x: seq<real>, y: seq<real>)
    ensures WilcoxonExact(x, y).w2 == WalshTotal(Differences(x, y))
  {
    hide SumAt, WalshTotal, PositiveScore, Differences, Ones;
    var d := Differences(x, y);
    RankSumIsScore(d, Magnitudes(d));
    WalshIsScore(d);
  }

  // ---- the statistic in terms of the two samples ----

  /** How many positions of the paired samples have y[i] != x[i], and how many have y[i] > x[i]. */
  function Unequal(x: seq<real>, y: seq<real>): nat {
    |set i | 0 <= i < |x| && i < |y| && y[i] != x[i]|
  }

  function Raised(x: seq<real>, y: seq<real>): nat {
    |set i | 0 <= i < |x| && i < |y| && y[i] > x[i]|
  }

  /** The pairs i <= j of unequal positions whose differences add up to more than zero, and to zero. */
  function PositivePairs(x: seq<real>, y: seq<real>): set<(int, int)> {
    set i, j | 0 <= i < |x| && i < |y| && i <= j < |x| && j < |y| && y[i] != x[i] && y[j] != x[j]
               && (y[i] - x[i]) + (y[j] - x[j]) > 0.0 :: (i, j)
  }

  function ZeroPairs(x: seq<real>, y: seq<real>): set<(int, int)> {
    set i, j | 0 <= i < |x| && i < |y| && i <= j < |x| && j < |y| && y[i] != x[i] && y[j] != x[j]
               && (y[i] - x[i]) + (y[j] - x[j]) == 0.0 :: (i, j)
  }

  function Smaller(a: seq<real>, b: seq<real>): nat {
    if |a| < |b| then |a| else |b|
  }

  /** What position k adds beside position i. */
  function PairScoreAt(x: seq<real>, y: seq<real>, i: nat, k: nat): int
    requires i < Smaller(x, y) && k < Smaller(x, y)
  {
    if y[i] == x[i] || y[k] == x[k] then 0
    else if (y[i] - x[i]) + (y[k] - x[k]) > 0.0 then 2
    else if (y[i] - x[i]) + (y[k] - x[k]) == 0.0 then 1 else 0
  }

  /** The scores of position i beside positions k and later, and of all positions from i on. */
  function RowScore(x: seq<real>, y: seq<real>, i: nat, k: nat): int
    requires i < Smaller(x, y) && k <= Smaller(x, y)
    decreases Smaller(x, y) - k
  {
    if k == Smaller(x, y) then 0 else PairScoreAt(x, y, i, k) + RowScore(x, y, i, k + 1)
  }

  function ScoreFrom(x: seq<real>, y: seq<real>, i: nat): int
    requires i <= Smaller(x, y)
    decreases Smaller(x, y) - i
  {
    if i == Smaller(x, y) then 0 else RowScore(x, y, i, i) + ScoreFrom(x, y, i + 1)
  }

  lemma DifferencesStep(x: seq<real>, y: seq<real>, i: nat)
    requires i < Smaller(x, y)
    ensures Differences(x[i..], y[i..]) ==
            (if y[i] != x[i] then [y[i] - x[i]] else []) + Differences(x[i + 1..], y[i + 1..])
  {
    assert x[i..][1..] == x[i + 1..] && y[i..][1..] == y[i + 1..];
  }

  lemma DifferencesEnd(x: seq<real>, y: seq<real>, i: nat)
    requires i == Smaller(x, y)
    ensures Differences(x[i..], y[i..]) == []
  {}

  lemma {:induction false} RowIsWalsh(x: seq<real>, y: seq<real>, i: nat, k: nat)
    requires i < Smaller(x, y) && k <= Smaller(x, y) && y[i] != x[i]
    ensures RowScore(x, y, i, k) == WalshSum(y[i] - x[i], Differences(x[k..], y[k..]))
    decreases Smaller(x, y) - k
  {
    hide Differences;
    if k == Smaller(x, y) {
      DifferencesEnd(x, y, k);
    } else {
      DifferencesStep(x, y, k);
      RowIsWalsh(x, y, i, k + 1);
      if y[k] != x[k] {
        var rest := Differences(x[k + 1..], y[k + 1..]);
        assert ([y[k] - x[k]] + rest)[1..] == rest;
      } else {
        assert [] + Differences(x[k + 1..], y[k + 1..]) == Differences(x[k + 1..], y[k + 1..]);
      }
    }
  }

  lemma {:induction false} EmptyRow(x: seq<real>, y: seq<real>, i: nat, k: nat)
    requires i < Smaller(x, y) && k <= Smaller(x, y) && y[i] == x[i]
    ensures RowScore(x, y, i, k) == 0
    decreases Smaller(x, y) - k
  {
    if k < Smaller(x, y) { EmptyRow(x, y, i, k + 1); }
  }

  lemma {:induction false} ScoreIsWalsh(x: seq<real>, y: seq<real>, i: nat)
    requires i <= Smaller(x, y)
    ensures ScoreFrom(x, y, i) == WalshTotal(Differences(x[i..], y[i..]))
    decreases Smaller(x, y) - i
  {
    hide Differences, RowScore;
    if i == Smaller(x, y) {
      DifferencesEnd(x, y, i);
    } else {
      DifferencesStep(x, y, i);
      ScoreIsWalsh(x, y, i + 1);
      var rest := Differences(x[i + 1..], y[i + 1..]);
      if y[i] != x[i] {
        var d := y[i] - x[i];
        assert ([d] + rest)[1..] == rest;
        RowIsWalsh(x, y, i, i);
        assert WalshSum(d, [d] + rest) == WalshScore(d, d) + WalshSum(d, rest);
      } else {
        EmptyRow(x, y, i, i);
        assert [] + rest == rest;
      }
    }
  }

  // pairs, counted row by row

  /** Twice the positive pairs plus the zero ones, of those that a set of pairs picks out. */
  ghost function Weight(x: seq<real>, y: seq<real>, pairs: set<(int, int)>): int {
    2 * |pairs * PositivePairs(x, y)| + |pairs * ZeroPairs(x, y)|
  }

  lemma WeightJoin(x: seq<real>, y: seq<real>, a: set<(int, int)>, b: set<(int, int)>)
    requires a !! b
    ensures Weight(x, y, a + b) == Weight(x, y, a) + Weight(x, y, b)
  {
    hide PositivePairs, ZeroPairs;
    var p, z := PositivePairs(x, y), ZeroPairs(x, y);
    assert (a + b) * p == (a * p) + (b * p) && (a * p) !! (b * p);
    assert (a + b) * z == (a * z) + (b * z) && (a * z) !! (b * z);
  }

  lemma WeightOne(x: seq<real>, y: seq<real>, i: nat, k: nat)
    requires i <= k < Smaller(x, y)
    ensures Weight(x, y, {(i, k)}) == PairScoreAt(x, y, i, k)
  {
    var p, z := PositivePairs(x, y), ZeroPairs(x, y);
    var one: set<(int, int)> := {(i, k)};
    assert (i, k) in p <==> PairScoreAt(x, y, i, k) == 2;
    assert (i, k) in z <==> PairScoreAt(x, y, i, k) == 1;
    assert one * p == (if (i, k) in p then one else {});
    assert one * z == (if (i, k) in z then one else {});
  }

  ghost predicate Ordered(h: int, j: int) { h <= j }

  ghost function Row(n: nat, i: nat, k: nat): set<(int, int)> {
    set j: int | k <= j < n && Ordered(i, j) :: (i as int, j)
  }

  lemma {:induction false} RowWeight(x: seq<real>, y: seq<real>, i: nat, k: nat)
    requires i <= k <= Smaller(x, y) && i < Smaller(x, y)
    ensures Weight(x, y, Row(Smaller(x, y), i, k)) == RowScore(x, y, i, k)
    decreases Smaller(x, y) - k
  {
    hide Weight, PairScoreAt;
    var n := Smaller(x, y);
    if k == n {
      assert Row(n, i, k) == {};
      NoWeight(x, y);
    } else {
      RowWeight(x, y, i, k + 1);
      WeightOne(x, y, i, k);
      assert Ordered(i, k);
      assert Row(n, i, k) == {(i as int, k as int)} + Row(n, i, k + 1);
      WeightJoin(x, y, {(i as int, k as int)}, Row(n, i, k + 1));
    }
  }

  lemma NoWeight(x: seq<real>, y: seq<real>)
    ensures Weight(x, y, {}) == 0
  {
    assert {} * PositivePairs(x, y) == {} && {} * ZeroPairs(x, y) == {};
  }

  ghost function RowsFrom(n: nat, i: nat): set<(int, int)> {
    set h: int, j: int | i <= h < n && h <= j < n && Ordered(h, j) :: (h, j)
  }

  lemma {:induction false} RowsWeight(x: seq<real>, y: seq<real>, i: nat)
    requires i <= Smaller(x, y)
    ensures Weight(x, y, RowsFrom(Smaller(x, y), i)) == ScoreFrom(x, y, i)
    decreases Smaller(x, y) - i
  {
    hide Weight, RowScore;
    var n := Smaller(x, y);
    if i == n {
      assert RowsFrom(n, i) == {};
      NoWeight(x, y);
    } else {
      RowsWeight(x, y, i + 1);
      RowWeight(x, y, i, i);
      assert RowsFrom(n, i) == Row(n, i, i) + RowsFrom(n, i + 1);
      WeightJoin(x, y, Row(n, i, i), RowsFrom(n, i + 1));
    }
  }

  lemma AllPairs(x: seq<real>, y: seq<real>)
    ensures Weight(x, y, RowsFrom(Smaller(x, y), 0)) == 2 * |PositivePairs(x, y)| + |ZeroPairs(x, y)|
  {
    var all := RowsFrom(Smaller(x, y), 0);
    assert all * PositivePairs(x, y) == PositivePairs(x, y);
    assert all * ZeroPairs(x, y) == ZeroPairs(x, y);
  }

  // positions

  ghost function UnequalFrom(x: seq<real>, y: seq<real>, i: nat): set<int> {
    set k: int | i <= k < Smaller(x, y) && y[k] != x[k]
  }

  ghost function RaisedFrom(x: seq<real>, y: seq<real>, i: nat): set<int> {
    set k: int | i <= k < Smaller(x, y) && y[k] > x[k]
  }

  lemma {:induction false} UnequalCount(x: seq<real>, y: seq<real>, i: nat)
    requires i <= Smaller(x, y)
    ensures |Differences(x[i..], y[i..])| == |UnequalFrom(x, y, i)|
    decreases Smaller(x, y) - i
  {
    hide Differences;
    if i == Smaller(x, y) {
      DifferencesEnd(x, y, i);
      assert UnequalFrom(x, y, i) == {};
    } else {
      DifferencesStep(x, y, i);
      UnequalCount(x, y, i + 1);
      assert UnequalFrom(x, y, i) == (if y[i] != x[i] then {i as int} else {}) + UnequalFrom(x, y, i + 1);
    }
  }

  lemma SignsStep(d: real, rest: seq<real>)
    ensures Ones(Signs([d] + rest)) == Ones(Signs(rest)) + if d > 0.0 then 1 else 0
  {
    assert Signs([d] + rest)[1..] == Signs(rest);
  }

  lemma {:induction false} RaisedCount(x: seq<real>, y: seq<real>, i: nat)
    requires i <= Smaller(x, y)
    ensures Ones(Signs(Differences(x[i..], y[i..]))) == |RaisedFrom(x, y, i)|
    decreases Smaller(x, y) - i
  {
    hide Differences, Signs, Ones;
    if i == Smaller(x, y) {
      DifferencesEnd(x, y, i);
      assert RaisedFrom(x, y, i) == {};
      NoSigns();
    } else {
      DifferencesStep(x, y, i);
      RaisedCount(x, y, i + 1);
      assert RaisedFrom(x, y, i) == (if y[i] > x[i] then {i as int} else {}) + RaisedFrom(x, y, i + 1);
      var rest := Differences(x[i + 1..], y[i + 1..]);
      SignsStep(y[i] - x[i], rest);
      assert [] + rest == rest;
    }
  }

  lemma NoSigns()
    ensures Ones(Signs([])) == 0
  {}

  /** The outcome in terms of the two samples alone: the unequal and the raised positions are counted,
      and w_plus is the number of pairs of unequal positions whose differences add up to more than
      zero, counting those that add up to zero half. */
  lemma OutcomeOfSamples(x: seq<real>, y: seq<real>)
    ensures WilcoxonExact(x, y).nonzero == Unequal(x, y)
    ensures WilcoxonExact(x, y).positive == Raised(x, y)
    ensures WilcoxonExact(x, y).w2 == 2 * |PositivePairs(x, y)| + |ZeroPairs(x, y)|
  {
    hide Differences, Weight, ScoreFrom, WalshTotal, PositivePairs, ZeroPairs;
    StatisticCountsWalshSums(x, y);
    assert x[0..] == x && y[0..] == y;
    ScoreIsWalsh(x, y, 0);
    RowsWeight(x, y, 0);
    AllPairs(x, y);
    UnequalCount(x, y, 0);
    RaisedCount(x, y, 0);
    assert UnequalFrom(x, y, 0) == set i | 0 <= i < |x| && i < |y| && y[i] != x[i];
    assert RaisedFrom(x, y, 0) == set i | 0 <= i < |x| && i < |y| && y[i] > x[i];
  }

  /** [0, 0] against [1, 2]: both differences are positive, and w_plus is 3. */
  lemma RaisedTwice()
    ensures WilcoxonExact([0.0, 0.0], [1.0, 2.0]).w2 == 6
    ensures WilcoxonExact([0.0, 0.0], [1.0, 2.0]).positive == 2
  {
    hide WilcoxonExact;
    var x, y := [0.0, 0.0], [1.0, 2.0];
    OutcomeOfSamples(x, y);
    assert PositivePairs(x, y) == {(0, 0), (0, 1), (1, 1)};
    assert ZeroPairs(x, y) == {};
    assert (set i | 0 <= i < |x| && i < |y| && y[i] > x[i]) == {0, 1};
  }
}
