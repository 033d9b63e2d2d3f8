/** Sorting by a total comparison. */
module Sorting {
  ghost predicate Total<T(!new)>(notAfter: (T, T) -> bool) {
    forall a, b :: notAfter(a, b) || notAfter(b, a)
  }

  ghost predicate InOrder<T>(list: seq<T>, notAfter: (T, T) -> bool) {
    forall i :: 0 < i < |list| ==> notAfter(list[i - 1], list[i])
  }

  method Insert<T(!new)>(list: seq<T>, x: T, notAfter: (T, T) -> bool) returns (longer: seq<T>)
    requires Total(notAfter) && InOrder(list, notAfter)
    ensures InOrder(longer, notAfter) && multiset(longer) == multiset(list) + multiset{x}
  {
    var at := 0;
    while at < |list| && notAfter(list[at], x)
      invariant 0 <= at <= |list|
      invariant at > 0 ==> notAfter(list[at - 1], x)
    {
      at := at + 1;
    }
    longer := list[..at] + [x] + list[at..];
    Inserted(list, x, at);
  }

  lemma Inserted<T>(list: seq<T>, x: T, at: nat)
    requires at <= |list|
    ensures multiset(list[..at] + [x] + list[at..]) == multiset(list) + multiset{x}
  {
    assert list == list[..at] + list[at..];
  }

  /** The elements in order, none lost and none repeated more often than before. */
  method Sort<T(!new)>(list: seq<T>, notAfter: (T, T) -> bool) returns (ordered: seq<T>)
    requires Total(notAfter)
    ensures InOrder(ordered, notAfter) && multiset(ordered) == multiset(list)
  {
    ordered := [];
    for i := 0 to |list|
      invariant InOrder(ordered, notAfter) && multiset(ordered) == multiset(list[..i])
    {
      assert list[..i + 1] == list[..i] + [list[i]];
      ordered := Insert(ordered, list[i], notAfter);
    }
    assert list[..|list|] == list;
  }

  lemma SameMembers<T>(a: seq<T>, b: seq<T>)
    requires multiset(a) == multiset(b)
    ensures |a| == |b|
    ensures forall x :: x in a <==> x in b
  {
    assert |multiset(a)| == |a| && |multiset(b)| == |b|;
    assert forall x :: x in a <==> x in multiset(a);
    assert forall x :: x in b <==> x in multiset(b);
  }
}
