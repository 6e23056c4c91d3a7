/** Index selections as boolean masks, the two enumerations the exact tests walk
    (itertools.combinations and itertools.product), and counting over them. */
module Selection {

  type Mask = seq<bool>

  /** Number of selected positions. */
  function Ones(m: Mask): nat {
    if m == [] then 0 else (if m[0] then 1 else 0) + Ones(m[1..])
  }

  function Complement(m: Mask): (c: Mask)
    ensures |c| == |m|
    ensures forall i :: 0 <= i < |m| ==> c[i] == !m[i]
  {
    seq(|m|, i requires 0 <= i < |m| => !m[i])
  }

  /** sum(r[i] for i in s), with s given by its mask. */
  function SumAt(r: seq<int>, m: Mask): int
    requires |r| == |m|
  {
    if r == [] then 0 else (if m[0] then r[0] else 0) + SumAt(r[1..], m[1..])
  }

  function Sum(r: seq<int>): int {
    if r == [] then 0 else r[0] + Sum(r[1..])
  }

  /** The mask of the first k of n positions: the split that was actually observed. */
  function FirstK(n: nat, k: nat): (m: Mask)
    requires k <= n
    ensures |m| == n && forall i :: 0 <= i < n ==> m[i] == (i < k)
  {
    seq(n, i => i < k)
  }

  function Prefixed(b: bool, ms: seq<Mask>): (r: seq<Mask>)
    ensures |r| == |ms| && forall i :: 0 <= i < |r| ==> r[i] == [b] + ms[i]
  {
    seq(|ms|, i requires 0 <= i < |ms| => [b] + ms[i])
  }

  /** itertools.combinations(range(n), k), in its lexicographic order. */
  function Combinations(n: nat, k: nat): seq<Mask> {
    if k > n then []
    else if n == 0 then [[]]
    else Prefixed(true, if k == 0 then [] else Combinations(n - 1, k - 1)) + Prefixed(false, Combinations(n - 1, k))
  }

  /** itertools.product((0, 1), repeat=n), in its order. */
  function Product(n: nat): seq<Mask> {
    if n == 0 then [[]]
    else Prefixed(false, Product(n - 1)) + Prefixed(true, Product(n - 1))
  }

  predicate NoDuplicates<T(==)>(s: seq<T>) {
    forall i, j :: 0 <= i < j < |s| ==> s[i] != s[j]
  }

  /** sum(p(m) for m in ms): how many enumerated selections satisfy p. */
  function CountIf(ms: seq<Mask>, p: Mask -> bool): nat {
    if ms == [] then 0 else (if p(ms[0]) then 1 else 0) + CountIf(ms[1..], p)
  }

  /** The enumerated selections that satisfy p, as a set. */
  function Satisfying(ms: seq<Mask>, p: Mask -> bool): set<Mask> {
    set m | m in ms && p(m)
  }

  // ---- masks ----

  lemma OnesBound(m: Mask)
    ensures Ones(m) <= |m|
  {
    if m != [] { OnesBound(m[1..]); }
  }

  lemma {:induction false} OnesComplement(m: Mask)
    ensures Ones(Complement(m)) == |m| - Ones(m)
  {
    if m != [] {
      assert Complement(m)[1..] == Complement(m[1..]);
      OnesComplement(m[1..]);
    }
  }

  lemma {:induction false} OnesAppend(a: Mask, b: Mask)
    ensures Ones(a + b) == Ones(a) + Ones(b)
  {
    if a == [] {
      assert a + b == b;
    } else {
      assert (a + b)[1..] == a[1..] + b;
      OnesAppend(a[1..], b);
    }
  }

  lemma {:induction false} OnesFirstK(n: nat, k: nat)
    requires k <= n
    ensures Ones(FirstK(n, k)) == k
  {
    if n > 0 {
      if k > 0 {
        assert FirstK(n, k)[1..] == FirstK(n - 1, k - 1);
        OnesFirstK(n - 1, k - 1);
      } else {
        assert FirstK(n, k)[1..] == FirstK(n - 1, 0);
        OnesFirstK(n - 1, 0);
      }
    }
  }

  /** Flipping one position changes the count by one. */
  lemma {:induction false} OnesFlip(m: Mask, i: nat)
    requires i < |m|
    ensures Ones(m[i := true]) == Ones(m) + (if m[i] then 0 else 1)
    ensures Ones(m[i := false]) == Ones(m) - (if m[i] then 1 else 0)
  {
    if i > 0 {
      assert m[i := true][1..] == m[1..][i - 1 := true];
      assert m[i := false][1..] == m[1..][i - 1 := false];
      OnesFlip(m[1..], i - 1);
    } else {
      assert m[0 := true][1..] == m[1..] && m[0 := false][1..] == m[1..];
    }
  }

  lemma {:induction false} SumAtFlip(r: seq<int>, m: Mask, i: nat)
    requires |r| == |m| && i < |m|
    ensures SumAt(r, m[i := true]) == SumAt(r, m) + (if m[i] then 0 else r[i])
    ensures SumAt(r, m[i := false]) == SumAt(r, m) - (if m[i] then r[i] else 0)
  {
    if i > 0 {
      assert m[i := true][1..] == m[1..][i - 1 := true];
      assert m[i := false][1..] == m[1..][i - 1 := false];
      SumAtFlip(r[1..], m[1..], i - 1);
    } else {
      assert m[0 := true][1..] == m[1..] && m[0 := false][1..] == m[1..];
    }
  }

  lemma {:induction false} SumAtComplement(r: seq<int>, m: Mask)
    requires |r| == |m|
    ensures SumAt(r, m) + SumAt(r, Complement(m)) == Sum(r)
  {
    if r != [] {
      assert Complement(m)[1..] == Complement(m[1..]);
      SumAtComplement(r[1..], m[1..]);
    }
  }

  lemma {:induction false} SumAtAppend(r: seq<int>, s: seq<int>, a: Mask, b: Mask)
    requires |r| == |a| && |s| == |b|
    ensures SumAt(r + s, a + b) == SumAt(r, a) + SumAt(s, b)
  {
    if r == [] {
      assert r + s == s && a + b == b;
    } else {
      assert (r + s)[1..] == r[1..] + s && (a + b)[1..] == a[1..] + b;
      SumAtAppend(r[1..], s, a[1..], b);
    }
  }

  lemma {:induction false} SumAtFirstK(r: seq<int>, k: nat)
    requires k <= |r|
    ensures SumAt(r, FirstK(|r|, k)) == Sum(r[..k])
  {
    if r == [] {
    } else if k > 0 {
      assert FirstK(|r|, k)[1..] == FirstK(|r| - 1, k - 1);
      assert r[..k][1..] == r[1..][..k - 1];
      SumAtFirstK(r[1..], k - 1);
    } else {
      assert FirstK(|r|, 0)[1..] == FirstK(|r| - 1, 0);
      assert r[1..][..0] == r[..0] == [];
      SumAtFirstK(r[1..], 0);
    }
  }

  // ---- the enumerations are exactly the sets they stand for ----

  lemma PrefixedMembers(b: bool, x: seq<Mask>, m: Mask)
    ensures m in Prefixed(b, x) <==> m != [] && m[0] == b && m[1..] in x
  {
    var s := Prefixed(b, x);
    if m in s {
      var i :| 0 <= i < |s| && s[i] == m;
      assert m == [b] + x[i];
      assert m[1..] == x[i];
    }
    if m != [] && m[0] == b && m[1..] in x {
      var i :| 0 <= i < |x| && x[i] == m[1..];
      assert m == [b] + x[i] == s[i];
    }
  }

  /** What the two halves of an enumeration contain together. */
  lemma JoinMembers(b: bool, x: seq<Mask>, y: seq<Mask>, m: Mask)
    ensures m == [] ==> m !in Prefixed(b, x) + Prefixed(!b, y)
    ensures m != [] && m[0] == b ==> (m in Prefixed(b, x) + Prefixed(!b, y) <==> m[1..] in x)
    ensures m != [] && m[0] != b ==> (m in Prefixed(b, x) + Prefixed(!b, y) <==> m[1..] in y)
  {
    PrefixedMembers(b, x, m);
    PrefixedMembers(!b, y, m);
    assert m in Prefixed(b, x) + Prefixed(!b, y) <==> m in Prefixed(b, x) || m in Prefixed(!b, y);
  }

  /** One step of the recursion, seen through membership. */
  lemma CombinationsIn(n: nat, k: nat, m: Mask)
    requires 0 < n && k <= n
    ensures m == [] ==> m !in Combinations(n, k)
    ensures m != [] && m[0] && k == 0 ==> m !in Combinations(n, k)
    ensures m != [] && m[0] && k > 0 ==> (m in Combinations(n, k) <==> m[1..] in Combinations(n - 1, k - 1))
    ensures m != [] && !m[0] ==> (m in Combinations(n, k) <==> m[1..] in Combinations(n - 1, k))
  {
    JoinMembers(true, if k == 0 then [] else Combinations(n - 1, k - 1), Combinations(n - 1, k), m);
  }

  lemma CombinationsBase(n: nat, k: nat, m: Mask)
    ensures k > n ==> m !in Combinations(n, k)
    ensures n == k == 0 ==> (m in Combinations(n, k) <==> m == [])
    ensures k > n || n == 0 ==> NoDuplicates(Combinations(n, k))
  {}

  /** combinations lists every k-subset of n positions, and nothing else. */
  lemma {:induction false} CombinationsMembers(n: nat, k: nat, m: Mask)
    ensures m in Combinations(n, k) <==> |m| == n && Ones(m) == k
  {
    hide Combinations;
    OnesBound(m);
    CombinationsBase(n, k, m);
    if 0 < n && k <= n {
      CombinationsIn(n, k, m);
      if m != [] {
        if k > 0 { CombinationsMembers(n - 1, k - 1, m[1..]); }
        CombinationsMembers(n - 1, k, m[1..]);
      }
    }
  }

  lemma CombinationsJoined(n: nat, k: nat)
    requires 0 < n && k <= n
    requires k > 0 ==> NoDuplicates(Combinations(n - 1, k - 1))
    requires NoDuplicates(Combinations(n - 1, k))
    ensures NoDuplicates(Combinations(n, k))
  {
    JoinDistinct(true, if k == 0 then [] else Combinations(n - 1, k - 1), Combinations(n - 1, k));
  }

  /** combinations lists no subset twice. */
  lemma {:induction false} CombinationsDistinct(n: nat, k: nat)
    ensures NoDuplicates(Combinations(n, k))
  {
    hide Combinations, NoDuplicates;
    CombinationsBase(n, k, []);
    if k <= n && n > 0 {
      if k > 0 { CombinationsDistinct(n - 1, k - 1); }
      CombinationsDistinct(n - 1, k);
      CombinationsJoined(n, k);
    }
  }

  /** product lists every assignment of n signs. */
  lemma {:induction false} ProductMembers(n: nat, m: Mask)
    ensures m in Product(n) <==> |m| == n
  {
    if n > 0 {
      JoinMembers(false, Product(n - 1), Product(n - 1), m);
      if m != [] { ProductMembers(n - 1, m[1..]); }
    }
  }

  lemma {:induction false} ProductDistinct(n: nat)
    ensures NoDuplicates(Product(n))
  {
    if n > 0 {
      ProductDistinct(n - 1);
      JoinDistinct(false, Product(n - 1), Product(n - 1));
    }
  }

  lemma JoinDistinct(b: bool, x: seq<Mask>, y: seq<Mask>)
    requires NoDuplicates(x) && NoDuplicates(y)
    ensures NoDuplicates(Prefixed(b, x) + Prefixed(!b, y))
  {
    var s := Prefixed(b, x) + Prefixed(!b, y);
    forall i, j | 0 <= i < j < |s|
      ensures s[i] != s[j]
    {
      if j < |x| {
        assert s[i][1..] == x[i] && s[j][1..] == x[j];
      } else if |x| <= i {
        assert s[i][1..] == y[i - |x|] && s[j][1..] == y[j - |x|];
      } else {
        assert s[i][0] == b && s[j][0] == !b;
      }
    }
  }

  lemma {:induction false} ProductLength(n: nat)
    ensures |Product(n)| == Power2(n)
  {
    if n > 0 { ProductLength(n - 1); }
  }

  function Power2(n: nat): nat {
    if n == 0 then 1 else 2 * Power2(n - 1)
  }

  // ---- counting ----

  /** Counting along a duplicate-free list is the size of the set it selects. */
  lemma {:induction false} CountIsSize(ms: seq<Mask>, p: Mask -> bool)
    requires NoDuplicates(ms)
    ensures CountIf(ms, p) == |Satisfying(ms, p)|
  {
    if ms != [] {
      CountIsSize(ms[1..], p);
      SatisfyingStep(ms, p);
    }
  }

  lemma SatisfyingStep(ms: seq<Mask>, p: Mask -> bool)
    requires ms != [] && NoDuplicates(ms)
    ensures var rest := Satisfying(ms[1..], p);
            ms[0] !in rest && Satisfying(ms, p) == if p(ms[0]) then rest + {ms[0]} else rest
  {
    assert ms[0] !in ms[1..];
    assert forall m :: m in ms <==> m == ms[0] || m in ms[1..];
  }

  /** An injection between two sets orders their sizes. */
  lemma {:induction false} InjectionSize<A, B>(x: set<A>, y: set<B>, f: A -> B)
    requires forall a :: a in x ==> f(a) in y
    requires forall a, b :: a in x && b in x && f(a) == f(b) ==> a == b
    ensures |x| <= |y|
    decreases x
  {
    if x != {} {
      var a :| a in x;
      InjectionSize(x - {a}, y - {f(a)}, f);
    }
  }

  lemma TwoMembers<T>(s: set<T>, a: T, b: T)
    requires a in s && b in s && a != b
    ensures |s| >= 2
  {
    assert {a, b} <= s;
    SubsetSize({a, b}, s);
  }

  lemma {:induction false} SubsetSize<T>(a: set<T>, b: set<T>)
    requires a <= b
    ensures |a| <= |b|
    decreases a
  {
    if a != {} {
      var x :| x in a;
      SubsetSize(a - {x}, b - {x});
    }
  }
}
