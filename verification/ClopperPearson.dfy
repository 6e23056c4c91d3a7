/** Clopper-Pearson intervals, by bisection on the binomial tails. */
module ClopperPearson {
  import opened Binomial

  /** The bracket (low, high) after some halvings. */
  datatype Bracket = Bracket(low: real, high: real)

  /** One halving of solve's loop. */
  function Halve(holds: real -> bool, b: Bracket): Bracket {
    var mid := (b.low + b.high) / 2.0;
    if holds(mid) then Bracket(mid, b.high) else Bracket(b.low, mid)
  }

  function Bisect(holds: real -> bool, steps: nat): Bracket {
    if steps == 0 then Bracket(0.0, 1.0) else Halve(holds, Bisect(holds, steps - 1))
  }

  const STEPS: nat := 100

  function HalfPow(j: nat): real {
    if j == 0 then 1.0 else HalfPow(j - 1) / 2.0
  }

  /** The lower tail has not yet risen to alpha/2: the predicate of the lower end. */
  function LowerHolds(k: nat, n: nat, alpha: real): real -> bool {
    (p: real) => 1.0 - Cdf(k as int - 1, n, p) < alpha / 2.0
  }

  /** The predicate of the upper end. */
  function UpperHolds(k: nat, n: nat, alpha: real): real -> bool {
    (p: real) => Cdf(k, n, p) > alpha / 2.0
  }

  function Middle(b: Bracket): real {
    (b.low + b.high) / 2.0
  }

  /** The ends of the interval, before they are rounded to four digits. */
  function Lower(k: nat, n: nat, alpha: real): real {
    if k == 0 then 0.0 else Middle(Bisect(LowerHolds(k, n, alpha), STEPS))
  }

  function Upper(k: nat, n: nat, alpha: real): real {
    if k == n then 1.0 else Middle(Bisect(UpperHolds(k, n, alpha), STEPS))
  }

  // ---- the algorithm ----

  method Solve(holds: real -> bool) returns (root: real)
    ensures root == Middle(Bisect(holds, STEPS))
  {
    var low, high := 0.0, 1.0;
    for i := 0 to 100
      invariant Bracket(low, high) == Bisect(holds, i)
    {
      var mid := (low + high) / 2.0;
      if holds(mid) { low := mid; } else { high := mid; }
    }
    root := (low + high) / 2.0;
  }

  method Interval(k: nat, n: nat, alpha: real) returns (lower: real, upper: real)
    requires k <= n
    ensures lower == Lower(k, n, alpha) && upper == Upper(k, n, alpha)
  {
    if k == 0 { lower := 0.0; } else { lower := Solve(LowerHolds(k, n, alpha)); }
    if k == n { upper := 1.0; } else { upper := Solve(UpperHolds(k, n, alpha)); }
  }

  // ---- bisection ----

  lemma {:induction false} HalfPowJoins(i: nat, j: nat)
    ensures HalfPow(i + j) == HalfPow(i) * HalfPow(j)
  {
    if j > 0 { HalfPowJoins(i, j - 1); }
  }

  /** The last bracket is 2^-100 wide. */
  lemma LastBracket(holds: real -> bool)
    requires holds(0.0) && !holds(1.0)
    ensures var b := Bisect(holds, STEPS); b.high - b.low == 1.0 / 1267650600228229401496703205376.0
  {
    hide HalfPow, Bisect;
    BisectBrackets(holds, STEPS);
    HalfPowTen();
    HalfPowSum(10, 10, 1.0 / 1024.0, 1.0 / 1024.0);
    HalfPowSum(20, 20, 1.0 / 1048576.0, 1.0 / 1048576.0);
    HalfPowSum(40, 40, 1.0 / 1099511627776.0, 1.0 / 1099511627776.0);
    HalfPowSum(80, 20, 1.0 / 1208925819614629174706176.0, 1.0 / 1048576.0);
  }

  lemma HalfPowSum(i: nat, j: nat, x: real, y: real)
    requires HalfPow(i) == x && HalfPow(j) == y
    ensures HalfPow(i + j) == x * y
  {
    hide HalfPow;
    HalfPowJoins(i, j);
  }

  lemma HalfPowTen()
    ensures HalfPow(10) == 1.0 / 1024.0
  {
    assert HalfPow(4) == 1.0 / 16.0;
    assert HalfPow(7) == 1.0 / 128.0;
  }

  /** The bracket keeps the predicate true at its low end and false at its high end,
      inside the unit interval, and has width 2^-j. */
  lemma {:induction false} BisectBrackets(holds: real -> bool, j: nat)
    requires holds(0.0) && !holds(1.0)
    ensures var b := Bisect(holds, j);
            && holds(b.low) && !holds(b.high)
            && 0.0 <= b.low <= b.high <= 1.0
            && b.high - b.low == HalfPow(j) > 0.0
  {
    if j > 0 { BisectBrackets(holds, j - 1); }
  }

  /** Bisecting a weaker predicate lands in the same bracket or wholly above it. */
  lemma {:induction false} BisectMonotone(f: real -> bool, g: real -> bool, j: nat)
    requires f(0.0) && !f(1.0) && g(0.0) && !g(1.0)
    requires forall p :: Unit(p) && f(p) ==> g(p)
    ensures Bisect(f, j) == Bisect(g, j) || Bisect(f, j).high <= Bisect(g, j).low
  {
    if j > 0 {
      BisectMonotone(f, g, j - 1);
      BisectBrackets(f, j - 1);
      BisectBrackets(g, j - 1);
      HalveMonotone(f, g, Bisect(f, j - 1), Bisect(g, j - 1));
    }
  }

  lemma HalveMonotone(f: real -> bool, g: real -> bool, b: Bracket, c: Bracket)
    requires 0.0 <= b.low <= b.high <= 1.0 && c.low <= c.high
    requires forall p :: Unit(p) && f(p) ==> g(p)
    requires b == c || b.high <= c.low
    ensures Halve(f, b) == Halve(g, c) || Halve(f, b).high <= Halve(g, c).low
  {
    assert f(Middle(b)) ==> g(Middle(b));
  }

  lemma LowerBracket(k: nat, n: nat, alpha: real)
    requires 0 < k <= n && 0.0 < alpha < 2.0
    ensures LowerHolds(k, n, alpha)(0.0) && !LowerHolds(k, n, alpha)(1.0)
  {
    CdfAtZero(k - 1, n);
    CdfAtOne(k - 1, n);
  }

  lemma UpperBracket(k: nat, n: nat, alpha: real)
    requires k < n && 0.0 < alpha < 2.0
    ensures UpperHolds(k, n, alpha)(0.0) && !UpperHolds(k, n, alpha)(1.0)
  {
    CdfAtZero(k, n);
    CdfAtOne(k, n);
  }

  /** Each end lies within 2^-101 of a crossing of its own tail: the tail is on one side of
      alpha/2 that far below the end and on the other side that far above it. */
  lemma EndsBracketTails(k: nat, n: nat, alpha: real)
    requires k <= n && 0.0 < alpha < 2.0
    ensures k > 0 ==> var l, w := Lower(k, n, alpha), HalfPow(STEPS + 1);
                      Unit(l - w) && Unit(l + w)
                      && 1.0 - Cdf(k - 1, n, l - w) < alpha / 2.0 <= 1.0 - Cdf(k - 1, n, l + w)
    ensures k < n ==> var u, w := Upper(k, n, alpha), HalfPow(STEPS + 1);
                      Unit(u - w) && Unit(u + w)
                      && Cdf(k, n, u + w) <= alpha / 2.0 < Cdf(k, n, u - w)
  {
    hide Cdf, Bisect;
    assert HalfPow(STEPS + 1) == HalfPow(STEPS) / 2.0;
    if k > 0 {
      var f := LowerHolds(k, n, alpha);
      LowerBracket(k, n, alpha);
      BisectBrackets(f, STEPS);
      MiddleEnds(Bisect(f, STEPS));
    }
    if k < n {
      var g := UpperHolds(k, n, alpha);
      UpperBracket(k, n, alpha);
      BisectBrackets(g, STEPS);
      MiddleEnds(Bisect(g, STEPS));
    }
  }

  lemma MiddleEnds(b: Bracket)
    ensures Middle(b) - (b.high - b.low) / 2.0 == b.low
    ensures Middle(b) + (b.high - b.low) / 2.0 == b.high
  {}

  /** For a confidence level alpha of at most one the ends come in order. */
  lemma EndsOrdered(k: nat, n: nat, alpha: real)
    requires k <= n && 0.0 < alpha <= 1.0
    ensures 0.0 <= Lower(k, n, alpha) <= Upper(k, n, alpha) <= 1.0
  {
    hide Cdf, Bisect;
    if k > 0 {
      LowerBracket(k, n, alpha);
      BisectBrackets(LowerHolds(k, n, alpha), STEPS);
    }
    if k < n {
      UpperBracket(k, n, alpha);
      BisectBrackets(UpperHolds(k, n, alpha), STEPS);
    }
    if 0 < k < n {
      var f, g := LowerHolds(k, n, alpha), UpperHolds(k, n, alpha);
      forall p | Unit(p) && f(p)
        ensures g(p)
      {
        CdfRises(k - 1, k, n, p);
      }
      BisectMonotone(f, g, STEPS);
    }
  }

  // ---- coverage ----

  /** The reported interval, widened by w at both ends, misses p. */
  predicate Misses(k: nat, n: nat, alpha: real, w: real, p: real) {
    p < Lower(k, n, alpha) - w || Upper(k, n, alpha) + w < p
  }

  /** Probability under Binomial(n, p) that some count up to k satisfies `bad`. */
  function Mass(bad: nat -> bool, k: int, n: nat, p: real): real
    requires k >= -1
    decreases k + 1
  {
    if k < 0 then 0.0 else Mass(bad, k - 1, n, p) + if bad(k) then Pmf(n, k, p) else 0.0
  }

  lemma {:induction false} MassWithin(bad: nat -> bool, from: int, k: int, n: nat, p: real)
    requires -1 <= from <= k && Unit(p)
    requires forall j: nat :: j <= from ==> !bad(j)
    ensures 0.0 <= Mass(bad, k, n, p) <= Cdf(k, n, p) - Cdf(from, n, p)
    decreases k + 1
  {
    if k >= 0 {
      hide Pmf;
      PmfNonNegative(n, k, p);
      if from == k { MassWithin(bad, from - 1, k - 1, n, p); } else { MassWithin(bad, from, k - 1, n, p); }
    }
  }

  lemma {:induction false} MassMonotone(bad: nat -> bool, worse: nat -> bool, k: int, n: nat, p: real)
    requires k >= -1 && Unit(p)
    requires forall j: nat :: bad(j) && j <= k ==> worse(j)
    ensures Mass(bad, k, n, p) <= Mass(worse, k, n, p)
    decreases k + 1
  {
    if k >= 0 {
      hide Pmf;
      PmfNonNegative(n, k, p);
      MassMonotone(bad, worse, k - 1, n, p);
    }
  }

  lemma {:induction false} MassUnion(f: nat -> bool, g: nat -> bool, k: int, n: nat, p: real)
    requires k >= -1 && Unit(p)
    ensures Mass((j: nat) => f(j) || g(j), k, n, p) <= Mass(f, k, n, p) + Mass(g, k, n, p)
    decreases k + 1
  {
    if k >= 0 {
      hide Pmf;
      PmfNonNegative(n, k, p);
      MassUnion(f, g, k - 1, n, p);
    }
  }

  /** The counts whose interval lies above p carry at most alpha/2. */
  lemma HighIntervals(n: nat, alpha: real, p: real, bad: nat -> bool)
    requires Unit(p) && 0.0 < alpha < 2.0
    requires forall k: nat :: bad(k) ==> p < Lower(k, n, alpha) - HalfPow(STEPS + 1)
    ensures Mass(bad, n, n, p) <= alpha / 2.0
  {
    hide Lower, Cdf, Mass, HalfPow;
    if k: nat :| k <= n && bad(k) {
      var least := FirstBad(bad, k);
      NeverBelowZero(n, alpha, p, least, bad);
      EndsBracketTails(least, n, alpha);
      var l := Lower(least, n, alpha) - HalfPow(STEPS + 1);
      CdfFalls(least - 1, n, p, l);
      MassWithin(bad, least - 1, n, n, p);
      CdfTotal(n, p);
    } else {
      NoMass(bad, n, n, p);
    }
  }

  lemma NeverBelowZero(n: nat, alpha: real, p: real, k: nat, bad: nat -> bool)
    requires Unit(p) && bad(k)
    requires forall k: nat :: bad(k) ==> p < Lower(k, n, alpha) - HalfPow(STEPS + 1)
    ensures k > 0
  {
    HalfPowPositive(STEPS + 1);
  }

  lemma {:induction false} HalfPowPositive(j: nat)
    ensures HalfPow(j) > 0.0
  {
    if j > 0 { HalfPowPositive(j - 1); }
  }

  lemma {:induction false} NoMass(bad: nat -> bool, k: int, n: nat, p: real)
    requires k >= -1
    requires forall j: nat :: j <= k ==> !bad(j)
    ensures Mass(bad, k, n, p) == 0.0
    decreases k + 1
  {
    if k >= 0 { NoMass(bad, k - 1, n, p); }
  }

  lemma {:induction false} FirstBad(bad: nat -> bool, k: nat) returns (least: nat)
    requires bad(k)
    ensures least <= k && bad(least) && forall j: nat :: j < least ==> !bad(j)
  {
    if j: nat :| j < k && bad(j) { least := FirstBad(bad, j); } else { least := k; }
  }

  lemma {:induction false} LastBad(bad: nat -> bool, k: nat, n: nat) returns (last: nat)
    requires k <= n && bad(k)
    ensures k <= last <= n && bad(last) && forall j: nat :: last < j <= n ==> !bad(j)
    decreases n - k
  {
    if j: nat :| k < j <= n && bad(j) { last := LastBad(bad, j, n); } else { last := k; }
  }

  lemma {:induction false} MassStops(bad: nat -> bool, last: nat, k: nat, n: nat, p: real)
    requires last <= k && forall j: nat :: last < j <= k ==> !bad(j)
    ensures Mass(bad, k, n, p) == Mass(bad, last, n, p)
    decreases k
  {
    if last < k { MassStops(bad, last, k - 1, n, p); }
  }

  /** The counts whose interval lies below p carry at most alpha/2. */
  lemma LowIntervals(n: nat, alpha: real, p: real, bad: nat -> bool)
    requires Unit(p) && 0.0 < alpha < 2.0
    requires forall k: nat :: bad(k) ==> Upper(k, n, alpha) + HalfPow(STEPS + 1) < p
    ensures Mass(bad, n, n, p) <= alpha / 2.0
  {
    hide Upper, Cdf, Mass, HalfPow;
    if k: nat :| k <= n && bad(k) {
      var last := LastBad(bad, k, n);
      NeverTop(n, alpha, p, last, bad);
      EndsBracketTails(last, n, alpha);
      CdfFalls(last, n, Upper(last, n, alpha) + HalfPow(STEPS + 1), p);
      MassStops(bad, last, n, n, p);
      MassWithin(bad, -1, last, n, p);
      CdfEmpty(n, p);
    } else {
      NoMass(bad, n, n, p);
    }
  }

  lemma CdfEmpty(n: nat, p: real)
    ensures Cdf(-1, n, p) == 0.0
  {}

  lemma NeverTop(n: nat, alpha: real, p: real, k: nat, bad: nat -> bool)
    requires Unit(p) && bad(k)
    requires forall k: nat :: bad(k) ==> Upper(k, n, alpha) + HalfPow(STEPS + 1) < p
    ensures k != n
  {
    HalfPowPositive(STEPS + 1);
  }

  /** Coverage: whatever the true p, the chance of drawing a count whose interval, widened by
      the last half bracket, misses p is at most alpha. */
  lemma Coverage(n: nat, alpha: real, p: real, w: real)
    requires Unit(p) && 0.0 < alpha && w >= HalfPow(STEPS + 1)
    ensures Mass((k: nat) => Misses(k, n, alpha, w, p), n, n, p) <= alpha
  {
    var misses := (k: nat) => Misses(k, n, alpha, w, p);
    if alpha >= 2.0 {
      hide Mass, Misses, Cdf;
      MassWithin(misses, -1, n, n, p);
      CdfTotal(n, p);
      CdfEmpty(n, p);
    } else {
      var high := (k: nat) => p < Lower(k, n, alpha) - w;
      var low := (k: nat) => Upper(k, n, alpha) + w < p;
      MassUnion(high, low, n, n, p);
      hide Mass, Lower, Upper, HalfPow;
      HighIntervals(n, alpha, p, high);
      LowIntervals(n, alpha, p, low);
      MassMonotone(misses, (k: nat) => high(k) || low(k), n, n, p);
    }
  }

  /** The same guarantee for the four-digit values actually reported, for any rounding that
      moves an end by at most half of the last digit. */
  lemma CoverageAfterRounding(n: nat, alpha: real, p: real, lo: nat -> real, hi: nat -> real)
    requires Unit(p) && 0.0 < alpha
    requires forall k: nat :: Lower(k, n, alpha) - 0.00005 <= lo(k) <= Lower(k, n, alpha) + 0.00005
    requires forall k: nat :: Upper(k, n, alpha) - 0.00005 <= hi(k) <= Upper(k, n, alpha) + 0.00005
    ensures var w := 0.00005 + HalfPow(STEPS + 1);
            Mass((k: nat) => p < lo(k) - w || hi(k) + w < p, n, n, p) <= alpha
  {
    hide Mass, Lower, Upper, HalfPow;
    var w := HalfPow(STEPS + 1);
    Coverage(n, alpha, p, w);
    MassMonotone((k: nat) => p < lo(k) - (0.00005 + w) || hi(k) + (0.00005 + w) < p,
                 (k: nat) => Misses(k, n, alpha, w, p), n, n, p);
  }
}
