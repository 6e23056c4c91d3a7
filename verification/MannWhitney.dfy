/** The exact Mann-Whitney test and Cliff's delta. */
module MannWhitney {
  import opened Options
  import opened Selection
  import opened Ranks

  function Abs(x: int): nat {
    if x < 0 then -x else x
  }

  /** abs(d) >= abs(observed) - 1e-9 on the half-integer values whose doubles are d and observed. */
  predicate Reaches(d: int, observed: int) {
    Abs(d) as real / 2.0 >= Abs(observed) as real / 2.0 - 0.000000001
  }

  /** u2 is twice the statistic u; the unrounded p_two_sided is extreme / permutations. */
  datatype Outcome = Outcome(u2: int, extreme: nat, permutations: nat)

  /** Doubled deviation of a split's rank sum from its expectation, for groups of size k. */
  function Deviation(r: seq<int>, k: nat, m: Mask): int
    requires |m| == |r|
  {
    SumAt(r, m) - k * (|r| + 1)
  }

  function AsExtreme(r: seq<int>, k: nat, observed: int): Mask -> bool {
    (m: Mask) => |m| == |r| && Reaches(Deviation(r, k, m), observed)
  }

  function MannWhitneyExact(a: seq<real>, b: seq<real>): Outcome {
    var r := MidRanks(a + b);
    var observed := Sum(r[..|a|]) - |a| * (|r| + 1);
    var splits := Combinations(|r|, |a|);
    Outcome(Sum(r[..|a|]) - |a| * (|a| + 1), CountIf(splits, AsExtreme(r, |a|, observed)), |splits|)
  }

  /** The 1e-9 slack never changes an outcome. */
  lemma SlackIsExact(d: int, observed: int)
    ensures Reaches(d, observed) <==> Abs(d) >= Abs(observed)
  {
    if Abs(d) < Abs(observed) {
      assert Abs(d) as real + 1.0 <= Abs(observed) as real;
    }
  }

  // ---- the statistic ----

  /** #{x > y} over all pairs. */
  function Wins(a: seq<real>, b: seq<real>): nat {
    if a == [] then 0 else CountBelow(b, a[0]) + Wins(a[1..], b)
  }

  /** #{x == y} over all pairs. */
  function Ties(a: seq<real>, b: seq<real>): nat {
    if a == [] then 0 else CountEqual(b, a[0]) + Ties(a[1..], b)
  }

  /** sum((x > y) - (x < y)) over all pairs. */
  function Dominance(a: seq<real>, b: seq<real>): int {
    if a == [] then 0 else CountBelow(b, a[0]) - CountAbove(b, a[0]) + Dominance(a[1..], b)
  }

  /** Cliff's delta before rounding; an empty group is a division by zero in the source. */
  function CliffsDelta(a: seq<real>, b: seq<real>): Option<real> {
    if a == [] || b == [] then None
    else Some(Dominance(a, b) as real / (|a| * |b|) as real)
  }

  lemma {:induction false} PairScoreCounts(a: seq<real>, b: seq<real>)
    ensures PairScore(a, b) == 2 * Wins(a, b) + Ties(a, b)
    ensures Dominance(a, b) == PairScore(a, b) - |a| * |b|
  {
    if a != [] {
      ScoreSumCounts(a[0], b);
      PairScoreCounts(a[1..], b);
      assert |a| * |b| == (|a| - 1) * |b| + |b|;
    }
  }

  lemma ObservedSum(a: seq<real>, b: seq<real>)
    ensures var r := MidRanks(a + b);
            Sum(r[..|a|]) == SumAt(r, FirstK(|r|, |a|)) == |a| * (|a| + 1) + PairScore(a, b)
  {
    var v := a + b;
    var m := FirstK(|v|, |a|);
    SumAtFirstK(MidRanks(v), |a|);
    RankSumIdentity(v, m);
    OnesFirstK(|v|, |a|);
    PickFirst(a, b);
  }

  lemma {:induction false} PickAppend(v: seq<real>, w: seq<real>, m: Mask, l: Mask)
    requires |v| == |m| && |w| == |l|
    ensures Pick(v + w, m + l) == Pick(v, m) + Pick(w, l)
  {
    hide Pick;
    PickStep(v, m);
    if v == [] {
      assert v + w == w && m + l == l;
    } else {
      assert (v + w)[1..] == v[1..] + w && (m + l)[1..] == m[1..] + l;
      PickAppend(v[1..], w, m[1..], l);
      PickStep(v + w, m + l);
    }
  }

  lemma PickStep(v: seq<real>, m: Mask)
    requires |v| == |m|
    ensures v == [] ==> Pick(v, m) == []
    ensures v != [] ==> Pick(v, m) == if m[0] then [v[0]] + Pick(v[1..], m[1..]) else Pick(v[1..], m[1..])
  {}

  lemma {:induction false} PickNone(v: seq<real>)
    ensures Pick(v, seq(|v|, _ => false)) == []
  {
    if v != [] {
      assert seq(|v|, _ => false)[1..] == seq(|v| - 1, _ => false);
      PickNone(v[1..]);
    }
  }

  lemma PickFirst(a: seq<real>, b: seq<real>)
    ensures var m := FirstK(|a + b|, |a|);
            Pick(a + b, m) == a && Pick(a + b, Complement(m)) == b
  {
    hide Pick;
    var m := FirstK(|a + b|, |a|);
    var on, off := seq(|a|, _ => true), seq(|b|, _ => false);
    var off', on' := seq(|a|, _ => false), seq(|b|, _ => true);
    assert m == on + off && Complement(m) == off' + on';
    PickAppend(a, b, on, off);
    PickAppend(a, b, off', on');
    PickAll(a);
    PickAll(b);
    PickNone(a);
    PickNone(b);
  }

  /** u is the number of pairs a wins plus half the ties. */
  lemma UCountsWins(a: seq<real>, b: seq<real>)
    ensures MannWhitneyExact(a, b).u2 == 2 * Wins(a, b) + Ties(a, b)
  {
    ObservedSum(a, b);
    PairScoreCounts(a, b);
  }

  /** Cliff's delta is 2u/(nm) - 1. */
  lemma DeltaIsScaledU(a: seq<real>, b: seq<real>)
    requires a != [] && b != []
    ensures CliffsDelta(a, b) ==
            Some(MannWhitneyExact(a, b).u2 as real / (|a| * |b|) as real - 1.0)
  {
    hide Dominance, MannWhitneyExact;
    UCountsWins(a, b);
    PairScoreCounts(a, b);
    ShiftQuotient(MannWhitneyExact(a, b).u2, |a| * |b|);
  }

  lemma ShiftQuotient(x: int, d: int)
    requires d != 0
    ensures (x - d) as real / d as real == x as real / d as real - 1.0
  {
    QuotientMinusOne(x as real, d as real);
  }

  lemma QuotientMinusOne(x: real, y: real)
    requires y != 0.0
    ensures (x - y) / y == x / y - 1.0
  {
    var q, z := x / y, (x - y) / y;
    assert x == q * y && x - y == z * y;
    Cancel(z, q - 1.0, y);
  }

  lemma Cancel(a: real, b: real, y: real)
    requires y != 0.0 && a * y == b * y
    ensures a == b
  {
    assert (a - b) * y == 0.0;
  }

  // ---- exchanging the groups ----

  /** The same split of the same values, seen from the pool b + a and by the other group. */
  function Exchange(m: Mask, k: nat): (e: Mask)
    requires k <= |m|
    ensures |e| == |m|
  {
    Complement(m[k..] + m[..k])
  }

  lemma RanksOfJoin(a: seq<real>, b: seq<real>, pool: seq<real>)
    ensures RanksIn(a + b, pool) == RanksIn(a, pool) + RanksIn(b, pool)
  {}

  lemma RanksIgnoreOrder(xs: seq<real>, a: seq<real>, b: seq<real>)
    ensures RanksIn(xs, a + b) == RanksIn(xs, b + a)
  {
    forall i | 0 <= i < |xs|
      ensures RanksIn(xs, a + b)[i] == RanksIn(xs, b + a)[i]
    {
      ScoreSumAppend(xs[i], a, b);
      ScoreSumAppend(xs[i], b, a);
    }
  }

  /** Exchanging the groups turns a split's deviation into its opposite. */
  lemma ExchangeDeviation(a: seq<real>, b: seq<real>, m: Mask)
    requires |m| == |a + b|
    ensures Deviation(MidRanks(b + a), |b|, Exchange(m, |a|)) == -Deviation(MidRanks(a + b), |a|, m)
  {
    var ra, rb := RanksIn(a, a + b), RanksIn(b, a + b);
    RanksOfJoin(a, b, a + b);
    RanksOfJoin(b, a, b + a);
    RanksIgnoreOrder(a, a, b);
    RanksIgnoreOrder(b, a, b);
    assert MidRanks(a + b) == ra + rb && MidRanks(b + a) == rb + ra;
    ExchangeSum(ra, rb, m);
    RankTotal(b + a);
    var n, k := |a + b|, |a|;
    assert n * (n + 1) == k * (n + 1) + (n - k) * (n + 1);
  }

  lemma ExchangeSum(ra: seq<int>, rb: seq<int>, m: Mask)
    requires |m| == |ra| + |rb|
    ensures SumAt(rb + ra, Exchange(m, |ra|)) == Sum(rb + ra) - SumAt(ra + rb, m)
  {
    hide SumAt, Sum, Complement;
    var head, tail := m[..|ra|], m[|ra|..];
    assert m == head + tail;
    SumAtComplement(rb + ra, tail + head);
    SumAtAppend(rb, ra, tail, head);
    SumAtAppend(ra, rb, head, tail);
  }

  lemma ExchangeOnes(m: Mask, k: nat)
    requires k <= |m|
    ensures Ones(Exchange(m, k)) == |m| - Ones(m)
  {
    hide Ones;
    OnesComplement(m[k..] + m[..k]);
    OnesAppend(m[k..], m[..k]);
    OnesAppend(m[..k], m[k..]);
    assert m == m[..k] + m[k..];
  }

  lemma ExchangeInjective(m: Mask, l: Mask, k: nat)
    requires k <= |m| == |l| && Exchange(m, k) == Exchange(l, k)
    ensures m == l
  {
    var x, y := Exchange(m, k), Exchange(l, k);
    forall i | 0 <= i < |m|
      ensures m[i] == l[i]
    {
      var j := if i < k then i + (|m| - k) else i - k;
      assert x[j] == !m[i] && y[j] == !l[i];
    }
  }

  lemma ObservedExchange(n: nat, k: nat)
    requires k <= n
    ensures Exchange(FirstK(n, k), k) == FirstK(n, n - k)
  {}

  /** mann_whitney_exact, with the observed split given by its mask. */
  lemma ExtremeCount(a: seq<real>, b: seq<real>)
    ensures var r := MidRanks(a + b);
            var result := MannWhitneyExact(a, b);
            && result.extreme == CountIf(Combinations(|r|, |a|), AsExtreme(r, |a|, Deviation(r, |a|, FirstK(|r|, |a|))))
            && result.permutations == |Combinations(|r|, |a|)|
  {
    hide CountIf, Combinations, MidRanks, AsExtreme;
    ObservedSum(a, b);
  }

  /** Every split as extreme as the observed one has its counterpart after the exchange. */
  lemma ExchangeExtremes(a: seq<real>, b: seq<real>)
    ensures MannWhitneyExact(a, b).extreme <= MannWhitneyExact(b, a).extreme
    ensures MannWhitneyExact(a, b).permutations <= MannWhitneyExact(b, a).permutations
  {
    hide CountIf, Combinations, MidRanks, Exchange, FirstK, Deviation, MannWhitneyExact;
    var n, k := |a + b|, |a|;
    var r, s := MidRanks(a + b), MidRanks(b + a);
    var o, o' := Deviation(r, k, FirstK(n, k)), Deviation(s, |b|, FirstK(n, |b|));
    ExtremeCount(a, b);
    ExtremeCount(b, a);
    ObservedExchange(n, k);
    ExchangeDeviation(a, b, FirstK(n, k));
    var p, q := AsExtreme(r, k, o), AsExtreme(s, |b|, o');
    forall m: Mask | |m| == n && p(m)
      ensures q(Exchange(m, k))
    {
      ExchangeDeviation(a, b, m);
    }
    ExchangeCount(n, k, p, q);
    ExchangeCount(n, k, _ => true, _ => true);
    CountAll(Combinations(n, k));
    CountAll(Combinations(n, |b|));
  }

  lemma {:induction false} CountAll(ms: seq<Mask>)
    ensures CountIf(ms, _ => true) == |ms|
  {
    if ms != [] { CountAll(ms[1..]); }
  }

  lemma ExchangeMember(n: nat, k: nat, m: Mask)
    requires k <= n && m in Combinations(n, k)
    ensures |m| == n && Exchange(m, k) in Combinations(n, n - k)
  {
    hide Combinations, Ones, Exchange;
    CombinationsMembers(n, k, m);
    ExchangeOnes(m, k);
    CombinationsMembers(n, n - k, Exchange(m, k));
  }

  lemma ExchangeCount(n: nat, k: nat, p: Mask -> bool, q: Mask -> bool)
    requires k <= n
    requires forall m: Mask :: |m| == n && p(m) ==> q(Exchange(m, k))
    ensures CountIf(Combinations(n, k), p) <= CountIf(Combinations(n, n - k), q)
  {
    hide Combinations, CountIf, NoDuplicates, Exchange;
    var xs, ys := Combinations(n, k), Combinations(n, n - k);
    CombinationsDistinct(n, k);
    CombinationsDistinct(n, n - k);
    CountIsSize(xs, p);
    CountIsSize(ys, q);
    var f := (m: Mask) => if |m| == n then Exchange(m, k) else m;
    forall m | m in Satisfying(xs, p)
      ensures |m| == n && f(m) in Satisfying(ys, q)
    {
      ExchangeMember(n, k, m);
    }
    forall m, l | m in Satisfying(xs, p) && l in Satisfying(xs, p) && f(m) == f(l)
      ensures m == l
    {
      ExchangeMember(n, k, m);
      ExchangeMember(n, k, l);
      ExchangeInjective(m, l, k);
    }
    hide Satisfying;
    InjectionSize(Satisfying(xs, p), Satisfying(ys, q), f);
  }

  /** Swapping the groups leaves the p-value alone, and the two statistics share the nm pairs. */
  lemma SwapSymmetry(a: seq<real>, b: seq<real>)
    ensures MannWhitneyExact(a, b).u2 + MannWhitneyExact(b, a).u2 == 2 * |a| * |b|
    ensures MannWhitneyExact(a, b).extreme == MannWhitneyExact(b, a).extreme
    ensures MannWhitneyExact(a, b).permutations == MannWhitneyExact(b, a).permutations
  {
    ObservedSum(a, b);
    ObservedSum(b, a);
    PairScoreSwap(a, b);
    ExchangeExtremes(a, b);
    ExchangeExtremes(b, a);
  }

  // ---- how small the p-value can be ----

  /** The complement of a split deviates by the opposite amount, for the group it leaves. */
  lemma ComplementDeviation(v: seq<real>, k: nat, m: Mask)
    requires |m| == |v| && k <= |v|
    ensures Deviation(MidRanks(v), |v| - k, Complement(m)) == -Deviation(MidRanks(v), k, m)
  {
    hide SumAt, Sum, MidRanks;
    SumAtComplement(MidRanks(v), m);
    RankTotal(v);
    assert |v| * (|v| + 1) == k * (|v| + 1) + (|v| - k) * (|v| + 1);
  }

  /** A split is counted as extreme exactly when it has the right size and deviates at least as much. */
  predicate Counted(a: seq<real>, b: seq<real>, m: Mask) {
    var r := MidRanks(a + b);
    && |m| == |r| && Ones(m) == |a|
    && Abs(Deviation(r, |a|, m)) >= Abs(Deviation(r, |a|, FirstK(|r|, |a|)))
  }

  function CountedSet(a: seq<real>, b: seq<real>): set<Mask> {
    var r := MidRanks(a + b);
    Satisfying(Combinations(|r|, |a|), AsExtreme(r, |a|, Deviation(r, |a|, FirstK(|r|, |a|))))
  }

  lemma CountedMember(a: seq<real>, b: seq<real>, m: Mask)
    ensures m in CountedSet(a, b) <==> Counted(a, b, m)
  {
    hide Combinations, MidRanks, Deviation, Ones, Reaches, Abs;
    var r := MidRanks(a + b);
    CombinationsMembers(|r|, |a|, m);
    if |m| == |r| {
      SlackIsExact(Deviation(r, |a|, m), Deviation(r, |a|, FirstK(|r|, |a|)));
    }
  }

  lemma ExtremeIsSize(a: seq<real>, b: seq<real>)
    ensures MannWhitneyExact(a, b).extreme == |CountedSet(a, b)|
  {
    hide Combinations, MidRanks, AsExtreme, CountIf, NoDuplicates, MannWhitneyExact, Satisfying, Deviation;
    var r := MidRanks(a + b);
    ExtremeCount(a, b);
    CombinationsDistinct(|r|, |a|);
    CountIsSize(Combinations(|r|, |a|), AsExtreme(r, |a|, Deviation(r, |a|, FirstK(|r|, |a|))));
  }

  lemma ObservedCounted(a: seq<real>, b: seq<real>)
    ensures Counted(a, b, FirstK(|a + b|, |a|))
  {
    OnesFirstK(|a + b|, |a|);
  }

  /** Another counted split lifts the p-value to the advertised minimum. */
  lemma SecondSplit(a: seq<real>, b: seq<real>, m: Mask)
    requires Counted(a, b, m) && m != FirstK(|a + b|, |a|)
    ensures MannWhitneyExact(a, b).extreme >= 2
  {
    hide CountedSet, Counted, MannWhitneyExact, FirstK;
    ExtremeIsSize(a, b);
    ObservedCounted(a, b);
    CountedMember(a, b, m);
    CountedMember(a, b, FirstK(|a + b|, |a|));
    TwoMembers(CountedSet(a, b), m, FirstK(|a + b|, |a|));
  }

  lemma OnlyObserved(a: seq<real>, b: seq<real>)
    requires forall m: Mask :: Counted(a, b, m) ==> m == FirstK(|a + b|, |a|)
    ensures MannWhitneyExact(a, b).extreme == 1
  {
    hide CountedSet, Counted, MannWhitneyExact, FirstK;
    ExtremeIsSize(a, b);
    ObservedCounted(a, b);
    var o := FirstK(|a + b|, |a|);
    forall m: Mask
      ensures m in CountedSet(a, b) <==> m == o
    {
      CountedMember(a, b, m);
    }
    assert CountedSet(a, b) == {o};
  }

  /** Every element of a is larger than every element of b. */
  predicate Above(a: seq<real>, b: seq<real>) {
    forall i, j :: 0 <= i < |a| && 0 <= j < |b| ==> a[i] > b[j]
  }

  /** Groups of equal size can never reach a p-value below 2 / C(2n, n). */
  lemma EqualGroupsFloor(a: seq<real>, b: seq<real>)
    requires |a| == |b| > 0
    ensures MannWhitneyExact(a, b).extreme >= 2
  {
    hide MannWhitneyExact, Deviation, MidRanks;
    var o := FirstK(|a + b|, |a|);
    OnesFirstK(|a + b|, |a|);
    OnesComplement(o);
    ComplementDeviation(a + b, |a|, o);
    assert o[0] && !Complement(o)[0];
    SecondSplit(a, b, Complement(o));
  }

  /** Some pooled value has exactly k pooled values below it: no tie straddles the k-th place. */
  predicate Cut(v: seq<real>, k: nat) {
    exists j :: 0 <= j < |v| && CountBelow(v, v[j]) == k
  }

  lemma {:induction false} ScoreSumFull(x: real, ys: seq<real>)
    ensures ScoreSum(x, ys) <= 2 * |ys|
    ensures ScoreSum(x, ys) == 2 * |ys| <==> forall j :: 0 <= j < |ys| ==> x > ys[j]
  {
    if ys != [] { ScoreSumFull(x, ys[1..]); }
  }

  lemma AboveStep(xs: seq<real>, ys: seq<real>)
    requires xs != []
    ensures Above(xs, ys) <==> (forall j :: 0 <= j < |ys| ==> xs[0] > ys[j]) && Above(xs[1..], ys)
  {}

  /** The pair score is full exactly under strict separation. */
  lemma {:induction false} FullScore(xs: seq<real>, ys: seq<real>)
    ensures PairScore(xs, ys) == 2 * |xs| * |ys| <==> Above(xs, ys)
  {
    if xs != [] {
      assert PairScore(xs, ys) == ScoreSum(xs[0], ys) + PairScore(xs[1..], ys);
      ScoreSumFull(xs[0], ys);
      AboveStep(xs, ys);
      hide Above, ScoreSum, PairScore;
      PairScoreBounds(xs[1..], ys);
      FullScore(xs[1..], ys);
      assert 2 * |xs| * |ys| == 2 * |xs[1..]| * |ys| + 2 * |ys|;
    }
  }

  /** Deviation in terms of pairs won, for a mask of the right size. */
  lemma DeviationIsScore(v: seq<real>, m: Mask)
    requires |m| == |v|
    ensures var won := PairScore(Pick(v, m), Pick(v, Complement(m)));
            var pairs := Ones(m) * (|v| - Ones(m));
            && Deviation(MidRanks(v), Ones(m), m) == won - pairs
            && 0 <= won <= 2 * pairs
            && (won == 2 * pairs <==> Above(Pick(v, m), Pick(v, Complement(m))))
            && (won == 0 <==> Above(Pick(v, Complement(m)), Pick(v, m)))
  {
    hide Pick, PairScore, SumAt, MidRanks, Complement, Ones, Above;
    var x, y := Pick(v, m), Pick(v, Complement(m));
    RankSumIdentity(v, m);
    PickLength(v, m);
    PickLength(v, Complement(m));
    OnesComplement(m);
    ScoreRange(x, y);
    assert Ones(m) * (|v| + 1) == Ones(m) * (Ones(m) + 1) + Ones(m) * (|v| - Ones(m));
  }

  lemma ScoreRange(x: seq<real>, y: seq<real>)
    ensures var won, pairs := PairScore(x, y), |x| * |y|;
            && 0 <= won <= 2 * pairs
            && (won == 2 * pairs <==> Above(x, y))
            && (won == 0 <==> Above(y, x))
  {
    hide PairScore, Above;
    PairScoreBounds(x, y);
    FullScore(x, y);
    FullScore(y, x);
    PairScoreSwap(x, y);
    assert 2 * |x| * |y| == 2 * (|x| * |y|) == 2 * |y| * |x|;
  }

  /** Exchanging a chosen position for an unchosen one. */
  lemma Trade(v: seq<real>, m: Mask, i: nat, j: nat)
    requires |m| == |v| && i < |v| && j < |v| && m[i] && !m[j]
    ensures var t := m[i := false][j := true];
            && t != m && Ones(t) == Ones(m)
            && SumAt(MidRanks(v), t) == SumAt(MidRanks(v), m) - MidRanks(v)[i] + MidRanks(v)[j]
  {
    hide Ones, SumAt, MidRanks;
    OnesFlip(m, i);
    OnesFlip(m[i := false], j);
    SumAtFlip(MidRanks(v), m, i);
    SumAtFlip(MidRanks(v), m[i := false], j);
    assert m[i := false][j := true][j] != m[j];
  }

  lemma RankMonotone(v: seq<real>, i: nat, j: nat)
    requires i < |v| && j < |v| && v[i] <= v[j]
    ensures MidRanks(v)[i] <= MidRanks(v)[j]
  {
    ScoreSumMonotone(v[i], v[j], v);
  }

  /** The observed sum is at or above its expectation, yet a pair goes the other way:
      trading that pair gives a second extreme split. */
  lemma TradeUp(a: seq<real>, b: seq<real>, i: nat, j: nat)
    requires i < |a| && j < |b| && a[i] <= b[j]
    requires Deviation(MidRanks(a + b), |a|, FirstK(|a + b|, |a|)) >= 0
    ensures MannWhitneyExact(a, b).extreme >= 2
  {
    var v, o := a + b, FirstK(|a + b|, |a|);
    hide MidRanks, MannWhitneyExact, Ones, SumAt;
    OnesFirstK(|v|, |a|);
    Trade(v, o, i, |a| + j);
    RankMonotone(v, i, |a| + j);
    SecondSplit(a, b, o[i := false][|a| + j := true]);
  }

  lemma TradeDown(a: seq<real>, b: seq<real>, i: nat, j: nat)
    requires i < |a| && j < |b| && a[i] >= b[j]
    requires Deviation(MidRanks(a + b), |a|, FirstK(|a + b|, |a|)) <= 0
    ensures MannWhitneyExact(a, b).extreme >= 2
  {
    var v, o := a + b, FirstK(|a + b|, |a|);
    hide MidRanks, MannWhitneyExact, Ones, SumAt;
    OnesFirstK(|v|, |a|);
    Trade(v, o, i, |a| + j);
    RankMonotone(v, |a| + j, i);
    SecondSplit(a, b, o[i := false][|a| + j := true]);
  }

  lemma ObservedDeviation(a: seq<real>, b: seq<real>)
    ensures Deviation(MidRanks(a + b), |a|, FirstK(|a + b|, |a|)) == PairScore(a, b) - |a| * |b|
  {
    hide PairScore, MidRanks, FirstK;
    ObservedSum(a, b);
    assert |a| * (|a + b| + 1) == |a| * (|a| + 1) + |a| * |b|;
  }

  /** Without separation in either direction the floor holds. */
  lemma MixedFloor(a: seq<real>, b: seq<real>)
    requires !Above(a, b) && !Above(b, a)
    ensures MannWhitneyExact(a, b).extreme >= 2
  {
    hide MidRanks, MannWhitneyExact, FirstK, Deviation;
    if Deviation(MidRanks(a + b), |a|, FirstK(|a + b|, |a|)) >= 0 {
      var i, j :| 0 <= i < |a| && 0 <= j < |b| && a[i] <= b[j];
      TradeUp(a, b, i, j);
    } else {
      var j, i :| 0 <= j < |b| && 0 <= i < |a| && b[j] <= a[i];
      TradeDown(a, b, i, j);
    }
  }

  /** The positions whose value is below x. */
  function BelowMask(v: seq<real>, x: real): (m: Mask)
    ensures |m| == |v| && forall i :: 0 <= i < |v| ==> m[i] == (v[i] < x)
  {
    seq(|v|, i requires 0 <= i < |v| => v[i] < x)
  }

  lemma {:induction false} BelowMaskOnes(v: seq<real>, x: real)
    ensures Ones(BelowMask(v, x)) == CountBelow(v, x)
  {
    if v != [] {
      assert BelowMask(v, x)[1..] == BelowMask(v[1..], x);
      BelowMaskOnes(v[1..], x);
    }
  }

  lemma BelowMaskSeparates(v: seq<real>, x: real)
    ensures var m := BelowMask(v, x); Above(Pick(v, Complement(m)), Pick(v, m))
  {
    hide Pick;
    var m := BelowMask(v, x);
    var low, high := Pick(v, m), Pick(v, Complement(m));
    forall i, j | 0 <= i < |high| && 0 <= j < |low|
      ensures high[i] > low[j]
    {
      PickMembers(v, Complement(m), high[i]);
      PickMembers(v, m, low[j]);
    }
  }

  /** Under separation of a nonempty pool the observed deviation is as large as can be. */
  lemma SeparatedDeviation(a: seq<real>, b: seq<real>)
    requires a != [] && b != [] && Above(a, b)
    ensures Deviation(MidRanks(a + b), |a|, FirstK(|a + b|, |a|)) == |a| * |b| > 0
  {
    hide MidRanks, FirstK, Deviation, Above, PairScore;
    ObservedDeviation(a, b);
    FullScore(a, b);
    assert 2 * |a| * |b| == 2 * (|a| * |b|);
  }

  /** The split below a cut deviates as far the other way. */
  lemma CutDeviation(v: seq<real>, x: real)
    ensures var m := BelowMask(v, x);
            && Ones(m) == CountBelow(v, x)
            && Deviation(MidRanks(v), Ones(m), m) == -(Ones(m) * (|v| - Ones(m)))
  {
    hide MidRanks, Deviation, Above, PairScore, Pick, Complement, Ones, BelowMask;
    BelowMaskOnes(v, x);
    BelowMaskSeparates(v, x);
    DeviationIsScore(v, BelowMask(v, x));
  }

  /** Complete separation, and the mirrored split exists: it is the second extreme one. */
  lemma CutFloor(a: seq<real>, b: seq<real>)
    requires a != [] && b != [] && Above(a, b) && Cut(a + b, |a|)
    ensures MannWhitneyExact(a, b).extreme >= 2
  {
    hide MidRanks, MannWhitneyExact, FirstK, Deviation, Above, Ones, BelowMask;
    var v := a + b;
    var j :| 0 <= j < |v| && CountBelow(v, v[j]) == |a|;
    CutDeviation(v, v[j]);
    SeparatedDeviation(a, b);
    SecondSplit(a, b, BelowMask(v, v[j]));
  }

  /** The least unchosen value. */
  lemma {:induction false} LeastOutside(v: seq<real>, m: Mask) returns (j: nat)
    requires |m| == |v| && Ones(m) < |v|
    ensures j < |v| && !m[j] && forall i :: 0 <= i < |v| && !m[i] ==> v[j] <= v[i]
  {
    if Ones(m[1..]) == |m| - 1 {
      OnesAll(m[1..]);
      j := 0;
    } else {
      OnesBound(m[1..]);
      var k := LeastOutside(v[1..], m[1..]);
      j := if !m[0] && v[0] <= v[k + 1] then 0 else k + 1;
    }
  }

  lemma {:induction false} OnesAll(m: Mask)
    requires Ones(m) == |m|
    ensures forall i :: 0 <= i < |m| ==> m[i]
  {
    if m != [] {
      OnesBound(m[1..]);
      OnesAll(m[1..]);
    }
  }

  lemma {:induction false} OnesNone(m: Mask)
    requires Ones(m) == 0
    ensures forall i :: 0 <= i < |m| ==> !m[i]
  {
    if m != [] { OnesNone(m[1..]); }
  }

  /** A split lying wholly below the rest exhibits a cut. */
  lemma SeparationCuts(v: seq<real>, m: Mask)
    requires |m| == |v| && Ones(m) < |v|
    requires Above(Pick(v, Complement(m)), Pick(v, m))
    ensures Cut(v, Ones(m))
  {
    var j := LeastOutside(v, m);
    forall i | 0 <= i < |v|
      ensures m[i] == BelowMask(v, v[j])[i]
    {
      if m[i] { SeparatedPair(v, m, i, j); }
    }
    assert m == BelowMask(v, v[j]);
    BelowMaskOnes(v, v[j]);
  }

  lemma SeparatedPair(v: seq<real>, m: Mask, i: nat, j: nat)
    requires |m| == |v| && i < |v| && j < |v| && m[i] && !m[j]
    ensures Above(Pick(v, Complement(m)), Pick(v, m)) ==> v[i] < v[j]
    ensures Above(Pick(v, m), Pick(v, Complement(m))) ==> v[j] < v[i]
  {
    hide Pick;
    assert Complement(m)[j];
    PickMembers(v, m, v[i]);
    PickMembers(v, Complement(m), v[j]);
  }

  /** Only one split of its size lies wholly above the rest. */
  lemma TopSplitUnique(a: seq<real>, b: seq<real>, m: Mask)
    requires |m| == |a + b| && Ones(m) == |a| && Above(a, b)
    requires Above(Pick(a + b, m), Pick(a + b, Complement(m)))
    ensures m == FirstK(|m|, |a|)
  {
    var v, o := a + b, FirstK(|m|, |a|);
    if i :| 0 <= i < |v| && m[i] != o[i] {
      OnesFirstK(|m|, |a|);
      var p, q := Crossing(m, o, i);
      assert a[q] > b[p - |a|];
      SeparatedPair(v, m, p, q);
    }
  }

  /** Two different masks of equal size each hold a position the other lacks. */
  lemma Crossing(m: Mask, o: Mask, i: nat) returns (p: nat, q: nat)
    requires |m| == |o| && Ones(m) == Ones(o) && i < |m| && m[i] != o[i]
    ensures p < |m| && q < |m| && m[p] && !o[p] && o[q] && !m[q]
  {
    if forall k :: 0 <= k < |m| ==> m[k] ==> o[k] {
      OnesSubset(m, o, i);
    }
    if forall k :: 0 <= k < |m| ==> o[k] ==> m[k] {
      OnesSubset(o, m, i);
    }
    p :| 0 <= p < |m| && m[p] && !o[p];
    q :| 0 <= q < |m| && o[q] && !m[q];
  }

  lemma {:induction false} OnesSubset(m: Mask, o: Mask, i: nat)
    requires |m| == |o| && i < |m| && !m[i] && o[i]
    requires forall k :: 0 <= k < |m| && m[k] ==> o[k]
    ensures Ones(m) < Ones(o)
  {
    if i > 0 {
      OnesSubset(m[1..], o[1..], i - 1);
    } else {
      OnesWeak(m[1..], o[1..]);
    }
  }

  lemma {:induction false} OnesWeak(m: Mask, o: Mask)
    requires |m| == |o| && forall k :: 0 <= k < |m| && m[k] ==> o[k]
    ensures Ones(m) <= Ones(o)
  {
    if m != [] { OnesWeak(m[1..], o[1..]); }
  }

  /** Complete separation and a tie across the mirrored cut: the observed split stands alone. */
  lemma NoCutAlone(a: seq<real>, b: seq<real>)
    requires a != [] && b != [] && Above(a, b) && !Cut(a + b, |a|)
    ensures MannWhitneyExact(a, b).extreme == 1
  {
    hide MannWhitneyExact, Cut;
    forall m: Mask | Counted(a, b, m)
      ensures m == FirstK(|a + b|, |a|)
    {
      CountedAlone(a, b, m);
    }
    OnlyObserved(a, b);
  }

  lemma CountedAlone(a: seq<real>, b: seq<real>, m: Mask)
    requires a != [] && b != [] && Above(a, b) && !Cut(a + b, |a|) && Counted(a, b, m)
    ensures m == FirstK(|a + b|, |a|)
  {
    hide MidRanks, FirstK, Deviation, Above, Cut, PairScore, Pick, Complement, Ones;
    var v := a + b;
    SeparatedDeviation(a, b);
    DeviationIsScore(v, m);
    if Above(Pick(v, Complement(m)), Pick(v, m)) {
      SeparationCuts(v, m);
    }
    TopSplitUnique(a, b, m);
  }

  lemma EmptyGroupAlone(a: seq<real>, b: seq<real>)
    requires a == [] || b == []
    ensures MannWhitneyExact(a, b).extreme == 1
  {
    forall m: Mask | Counted(a, b, m)
      ensures m == FirstK(|a + b|, |a|)
    {
      if a == [] { OnesNone(m); } else { OnesAll(m); }
    }
    OnlyObserved(a, b);
  }

  /** The reported min_possible_p, 2 / C(N, n), is a true lower bound on the p-value exactly
      when both groups have members and no complete separation meets a tie across the place
      where the mirrored split would have to cut the pool. */
  lemma MinPossiblePExact(a: seq<real>, b: seq<real>)
    ensures MannWhitneyExact(a, b).extreme >= 2 <==>
            && a != [] && b != []
            && !(Above(a, b) && !Cut(a + b, |a|))
            && !(Above(b, a) && !Cut(b + a, |b|))
  {
    hide MannWhitneyExact, Above, Cut;
    if a == [] || b == [] {
      EmptyGroupAlone(a, b);
    } else if Above(a, b) {
      AboveAsymmetric(a, b);
      if Cut(a + b, |a|) { CutFloor(a, b); } else { NoCutAlone(a, b); }
    } else if Above(b, a) {
      SwapSymmetry(a, b);
      if Cut(b + a, |b|) { CutFloor(b, a); } else { NoCutAlone(b, a); }
    } else {
      MixedFloor(a, b);
    }
  }

  lemma AboveAsymmetric(a: seq<real>, b: seq<real>)
    requires a != [] && b != [] && Above(a, b)
    ensures !Above(b, a)
  {
    assert a[0] > b[0];
  }

  /** A concrete failure of the advertised minimum: one value above two tied ones
      gives p = 1/3, below the reported 2/3. */
  lemma MinPossiblePCanFail()
    ensures MannWhitneyExact([1.0], [0.0, 0.0]).extreme == 1
    ensures MannWhitneyExact([1.0], [0.0, 0.0]).permutations == 3
  {
    var a, b := [1.0], [0.0, 0.0];
    assert a + b == [1.0, 0.0, 0.0];
    assert CountBelow([1.0, 0.0, 0.0], 0.0) == 0 && CountBelow([1.0, 0.0, 0.0], 1.0) == 2;
    NoCutAlone(a, b);
    assert |Combinations(3, 1)| == 3;
  }
}
