/** Lists that hold the same elements in different orders. */
module Sequences {

  lemma EmptyBag<T>(v: seq<T>)
    requires multiset(v) == multiset([])
    ensures v == []
  {
    assert |multiset(v)| == |v|;
  }

  /** Where the head of one list stands in a reordering of it. */
  lemma PlaceOfHead<T>(a: seq<T>, b: seq<T>) returns (i: nat)
    requires a != [] && multiset(a) == multiset(b)
    ensures i < |b| && b[i] == a[0] && multiset(a[1..]) == multiset(b[..i] + b[i + 1..])
  {
    assert a[0] in multiset(b);
    i :| i < |b| && b[i] == a[0];
    assert a == [a[0]] + a[1..];
    assert b == b[..i] + [b[i]] + b[i + 1..];
    assert multiset(a[1..]) == multiset(a) - multiset{a[0]};
    assert multiset(b[..i] + b[i + 1..]) == multiset(b) - multiset{a[0]};
  }
}
