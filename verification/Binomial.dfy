/** The binomial distribution as `binomial_cdf` sums it, over exact reals. */
module Binomial {
  import opened Selection

  /** math.comb, by Pascal's rule. */
  function Choose(n: nat, k: nat): nat {
    if k == 0 then 1 else if n == 0 then 0 else Choose(n - 1, k - 1) + Choose(n - 1, k)
  }

  function Pow(x: real, e: nat): real {
    if e == 0 then 1.0 else x * Pow(x, e - 1)
  }

  /** One term of binomial_cdf. */
  function Pmf(n: nat, i: nat, p: real): real {
    if i > n then 0.0 else Choose(n, i) as real * Pow(p, i) * Pow(1.0 - p, n - i)
  }

  /** binomial_cdf(k, n, p); k may be -1, for the empty sum. */
  function Cdf(k: int, n: nat, p: real): real
    requires k >= -1
    decreases k + 1
  {
    if k < 0 then 0.0 else Cdf(k - 1, n, p) + Pmf(n, k, p)
  }

  predicate Unit(p: real) {
    0.0 <= p <= 1.0
  }

  lemma {:induction false} ChooseAbove(n: nat, k: nat)
    requires k > n
    ensures Choose(n, k) == 0
  {
    if n > 0 {
      ChooseAbove(n - 1, k - 1);
      ChooseAbove(n - 1, k);
    }
  }

  /** combinations(range(n), k) yields comb(n, k) selections. */
  lemma {:induction false} CombinationsCount(n: nat, k: nat)
    ensures |Combinations(n, k)| == Choose(n, k)
  {
    if k > n {
      ChooseAbove(n, k);
    } else if n > 0 {
      if k > 0 { CombinationsCount(n - 1, k - 1); }
      CombinationsCount(n - 1, k);
      CombinationsNone(n - 1);
    }
  }

  lemma {:induction false} CombinationsNone(n: nat)
    ensures |Combinations(n, 0)| == 1
  {
    if n > 0 { CombinationsNone(n - 1); }
  }

  lemma {:induction false} PowNonNegative(x: real, e: nat)
    requires x >= 0.0
    ensures Pow(x, e) >= 0.0
  {
    if e > 0 { PowNonNegative(x, e - 1); }
  }

  lemma PmfNonNegative(n: nat, i: nat, p: real)
    requires Unit(p)
    ensures Pmf(n, i, p) >= 0.0
  {
    if i <= n {
      PowNonNegative(p, i);
      PowNonNegative(1.0 - p, n - i);
      ProductNonNegative(Choose(n, i) as real, Pow(p, i), Pow(1.0 - p, n - i));
    }
  }

  lemma ProductNonNegative(a: real, b: real, c: real)
    requires a >= 0.0 && b >= 0.0 && c >= 0.0
    ensures a * b * c >= 0.0
  {
    assert a * b >= 0.0;
  }

  /** Regrouping the two halves of Pascal's rule. */
  lemma SplitTerm(c: real, a: real, b: real, p: real, q: real, x: real, y: real, px: real, qy: real,
                  t: real, u: real, v: real)
    requires c == a + b && px == p * x && qy == q * y
    requires t == c * px * qy && u == a * x * qy && v == b * px * y
    ensures t == p * u + q * v
  {
    assert (a + b) * px * qy == a * px * qy + b * px * qy;
    assert a * px * qy == p * (a * x * qy);
    assert b * px * qy == q * (b * px * y);
  }

  lemma PmfTerm(n: nat, i: nat, p: real)
    requires i <= n
    ensures Pmf(n, i, p) == Choose(n, i) as real * Pow(p, i) * Pow(1.0 - p, n - i)
  {}

  /** Drawing one more time: success shifts the count, failure keeps it. */
  lemma PmfStep(n: nat, i: nat, p: real)
    ensures Pmf(n + 1, i, p) == (if i == 0 then 0.0 else p * Pmf(n, i - 1, p)) + (1.0 - p) * Pmf(n, i, p)
  {
    var q := 1.0 - p;
    if i == 0 {
      PmfNone(n, p);
      PmfNone(n + 1, p);
      assert Pow(q, n + 1) == q * Pow(q, n);
    } else if i <= n {
      PascalStep(n, i, p);
    } else if i == n + 1 {
      TopStep(n, p);
      assert Pmf(n, n + 1, p) == 0.0;
    } else {
      assert p * 0.0 + q * 0.0 == 0.0;
    }
  }

  lemma PowStep(x: real, e: nat)
    requires e > 0
    ensures Pow(x, e) == x * Pow(x, e - 1)
  {}

  lemma ChooseStep(n: nat, i: nat)
    requires i > 0
    ensures Choose(n + 1, i) as real == Choose(n, i - 1) as real + Choose(n, i) as real
  {}

  lemma TopStep(n: nat, p: real)
    ensures Pmf(n + 1, n + 1, p) == p * Pmf(n, n, p)
  {
    hide Pow, Choose, Pmf;
    PmfTerm(n + 1, n + 1, p);
    PmfTerm(n, n, p);
    ChooseAbove(n, n + 1);
    ChooseStep(n, n + 1);
    PowStep(p, n + 1);
    PowNone(1.0 - p);
    TopTerm(Choose(n, n) as real, p, Pow(p, n));
  }

  lemma PowNone(x: real)
    ensures Pow(x, 0) == 1.0
  {}

  lemma PascalStep(n: nat, i: nat, p: real)
    requires 0 < i <= n
    ensures Pmf(n + 1, i, p) == p * Pmf(n, i - 1, p) + (1.0 - p) * Pmf(n, i, p)
  {
    hide Pow, Choose, Pmf;
    var q := 1.0 - p;
    PowStep(p, i);
    PowStep(q, n + 1 - i);
    ChooseStep(n, i);
    PmfTerm(n + 1, i, p);
    PmfTerm(n, i - 1, p);
    PmfTerm(n, i, p);
    SplitTerm(Choose(n + 1, i) as real, Choose(n, i - 1) as real, Choose(n, i) as real, p, q,
              Pow(p, i - 1), Pow(q, n - i), Pow(p, i), Pow(q, n + 1 - i),
              Pmf(n + 1, i, p), Pmf(n, i - 1, p), Pmf(n, i, p));
  }

  lemma PmfNone(n: nat, p: real)
    ensures Pmf(n, 0, p) == Pow(1.0 - p, n)
  {
    assert Choose(n, 0) as real * Pow(p, 0) == 1.0;
  }

  lemma TopTerm(c: real, p: real, x: real)
    ensures c * (p * x) * 1.0 == p * (c * x * 1.0)
  {}

  lemma {:induction false} CdfStep(k: int, n: nat, p: real)
    requires k >= -1
    ensures Cdf(k, n + 1, p) == (if k < 0 then 0.0 else p * Cdf(k - 1, n, p)) + (1.0 - p) * Cdf(k, n, p)
    decreases k + 1
  {
    hide Pmf, Cdf;
    CdfUnfold(k, n, p);
    CdfUnfold(k, n + 1, p);
    if k >= 0 {
      CdfUnfold(k - 1, n, p);
      CdfStep(k - 1, n, p);
      PmfStep(n, k, p);
      if k > 0 {
        Regroup(p, Cdf(k - 2, n, p), Cdf(k - 1, n, p), Pmf(n, k - 1, p), Pmf(n, k, p));
      }
    }
  }

  lemma CdfUnfold(k: int, n: nat, p: real)
    requires k >= -1
    ensures Cdf(k, n, p) == if k < 0 then 0.0 else Cdf(k - 1, n, p) + Pmf(n, k, p)
  {}

  lemma Regroup(p: real, a: real, b: real, x: real, y: real)
    ensures p * a + (1.0 - p) * b + (p * x + (1.0 - p) * y) == p * (a + x) + (1.0 - p) * (b + y)
  {}

  /** The probabilities total one. */
  lemma {:induction false} CdfTotal(n: nat, p: real)
    ensures Cdf(n, n, p) == 1.0
  {
    if n == 0 {
      assert Pow(p, 0) == 1.0 && Pow(1.0 - p, 0) == 1.0;
      assert Cdf(-1, 0, p) == 0.0;
    } else {
      CdfTotal(n - 1, p);
      CdfStep(n, n - 1, p);
      assert Cdf(n, n - 1, p) == Cdf(n - 1, n - 1, p) + Pmf(n - 1, n, p) == 1.0;
    }
  }

  lemma {:induction false} CdfRises(j: int, k: int, n: nat, p: real)
    requires -1 <= j <= k && Unit(p)
    ensures 0.0 <= Cdf(j, n, p) <= Cdf(k, n, p)
    decreases k + 1
  {
    if k >= 0 {
      PmfNonNegative(n, k, p);
      if j == k { CdfRises(j - 1, k - 1, n, p); } else { CdfRises(j, k - 1, n, p); }
    }
  }

  lemma MixFalls(a: real, b: real, c: real, d: real, p: real, q: real)
    requires 0.0 <= p <= q <= 1.0
    requires c <= a && d <= b && c <= d
    ensures q * c + (1.0 - q) * d <= p * a + (1.0 - p) * b
  {
    assert p * c <= p * a;
    assert (1.0 - p) * d <= (1.0 - p) * b;
    assert (q - p) * (d - c) >= 0.0;
    assert p * c + (1.0 - p) * d - (q * c + (1.0 - q) * d) == (q - p) * (d - c);
  }

  /** A larger success probability makes small counts less likely. */
  lemma {:induction false} CdfFalls(k: int, n: nat, p: real, q: real)
    requires k >= -1 && 0.0 <= p <= q <= 1.0
    ensures Cdf(k, n, q) <= Cdf(k, n, p)
    decreases n
  {
    hide Pmf;
    if k < 0 {
    } else if n == 0 {
      NoDraws(k, p);
      NoDraws(k, q);
    } else {
      CdfStep(k, n - 1, p);
      CdfStep(k, n - 1, q);
      CdfFalls(k - 1, n - 1, p, q);
      CdfFalls(k, n - 1, p, q);
      CdfRises(k - 1, k, n - 1, q);
      MixFalls(Cdf(k - 1, n - 1, p), Cdf(k, n - 1, p), Cdf(k - 1, n - 1, q), Cdf(k, n - 1, q), p, q);
    }
  }

  lemma {:induction false} NoDraws(k: nat, p: real)
    ensures Cdf(k, 0, p) == 1.0
  {
    if k == 0 { CdfTotal(0, p); } else { NoDraws(k - 1, p); }
  }

  lemma {:induction false} CdfAtZero(k: nat, n: nat)
    ensures Cdf(k, n, 0.0) == 1.0
    decreases n
  {
    hide Pmf;
    if n == 0 {
      NoDraws(k, 0.0);
    } else {
      CdfStep(k, n - 1, 0.0);
      CdfAtZero(k, n - 1);
      assert 0.0 * Cdf(k - 1, n - 1, 0.0) == 0.0;
    }
  }

  lemma {:induction false} CdfAtOne(k: int, n: nat)
    requires -1 <= k < n
    ensures Cdf(k, n, 1.0) == 0.0
    decreases n
  {
    hide Pmf;
    if k >= 0 {
      CdfStep(k, n - 1, 1.0);
      CdfAtOne(k - 1, n - 1);
      assert (1.0 - 1.0) * Cdf(k, n - 1, 1.0) == 0.0;
    }
  }
}
