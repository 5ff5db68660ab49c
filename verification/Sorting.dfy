/** The library sort: an ordered rearrangement. Which one of several elements
    with equal keys comes first is not promised. */
module Sorting {
  ghost predicate SortedBy<T(!new)>(s: seq<T>, key: T -> real) {
    forall i, j | 0 <= i < j < |s| :: key(s[i]) <= key(s[j])
  }

  method LeastIndex<T>(a: array<T>, from: nat, key: T -> real) returns (k: nat)
    requires from < a.Length
    ensures from <= k < a.Length
    ensures forall j | from <= j < a.Length :: key(a[k]) <= key(a[j])
  {
    k := from;
    for i := from + 1 to a.Length
      invariant from <= k < i
      invariant forall j | from <= j < i :: key(a[k]) <= key(a[j])
    {
      var tie: bool :| true;
      if key(a[i]) < key(a[k]) || (tie && key(a[i]) == key(a[k])) {
        k := i;
      }
    }
  }

  method Swap<T>(a: array<T>, i: nat, k: nat)
    requires i < a.Length && k < a.Length
    modifies a
    ensures a[..] == old(a[..])[i := old(a[k])][k := old(a[i])]
    ensures multiset(a[..]) == multiset(old(a[..]))
  {
    a[i], a[k] := a[k], a[i];
  }

  method Sort<T(!new)>(a: array<T>, key: T -> real)
    modifies a
    ensures SortedBy(a[..], key)
    ensures multiset(a[..]) == multiset(old(a[..]))
  {
    for i := 0 to a.Length
      invariant forall p, q | 0 <= p < i && p < q < a.Length :: key(a[p]) <= key(a[q])
      invariant multiset(a[..]) == multiset(old(a[..]))
    {
      var k := LeastIndex(a, i, key);
      ghost var before := a[..];
      Swap(a, i, k);
      assert forall p | 0 <= p < a.Length :: a[p] == a[..][p] == before[if p == i then k else if p == k then i else p];
    }
  }

  method SortSeq<T(!new)>(s: seq<T>, key: T -> real) returns (r: seq<T>)
    ensures SortedBy(r, key)
    ensures multiset(r) == multiset(s)
    ensures |r| == |s|
    ensures forall x :: x in r <==> x in s
  {
    var a := new T[|s|](i requires 0 <= i < |s| => s[i]);
    assert a[..] == s;
    Sort(a, key);
    r := a[..];
    assert |multiset(r)| == |multiset(s)|;
    assert forall x :: x in r <==> x in multiset(r);
    assert forall x :: x in s <==> x in multiset(s);
  }
}
