/** Descending sort by an integer key, as a store's `sort({ field: -1 })`. */
module Sorting {

  /** Keys never increase from left to right (most recent / largest first). */
  ghost predicate NonIncreasing<T>(s: seq<T>, key: T -> int) {
    forall i, j :: 0 <= i < j < |s| ==> key(s[i]) >= key(s[j])
  }

  /** Inserts `x` into a non-increasing sequence before the first element with a smaller key. */
  function Insert<T(==)>(x: T, s: seq<T>, key: T -> int): (r: seq<T>)
    requires NonIncreasing(s, key)
    ensures NonIncreasing(r, key)
    ensures multiset(r) == multiset(s) + multiset{x}
    ensures forall y :: y in r ==> y == x || y in s
    decreases |s|
  {
    if |s| == 0 then [x]
    else if key(x) >= key(s[0]) then
      ConsSorted(x, s, key);
      [x] + s
    else
      var t := Insert(x, s[1..], key);
      InsertBelowHead(x, s, t, key);
      [s[0]] + t
  }

  /** Putting the head of `s` back in front of the tail with `x` inserted keeps the order. */
  lemma InsertBelowHead<T>(x: T, s: seq<T>, t: seq<T>, key: T -> int)
    requires |s| > 0 && NonIncreasing(s, key) && key(x) < key(s[0])
    requires NonIncreasing(t, key) && multiset(t) == multiset(s[1..]) + multiset{x}
    requires forall y :: y in t ==> y == x || y in s[1..]
    ensures NonIncreasing([s[0]] + t, key)
    ensures multiset([s[0]] + t) == multiset(s) + multiset{x}
  {
    assert s == [s[0]] + s[1..];
    forall y | y in t
      ensures key(y) <= key(s[0])
    {
      if y != x {
        var k :| 0 <= k < |s[1..]| && s[1..][k] == y;
        assert s[k + 1] == y;
      }
    }
    ConsSorted(s[0], t, key);
  }

  /** Prefixing an element whose key bounds every key of a sorted sequence keeps it sorted. */
  lemma ConsSorted<T>(a: T, t: seq<T>, key: T -> int)
    requires NonIncreasing(t, key)
    requires forall y :: y in t ==> key(y) <= key(a)
    ensures NonIncreasing([a] + t, key)
  {
    forall i, j | 0 <= i < j < |[a] + t|
      ensures key(([a] + t)[i]) >= key(([a] + t)[j])
    {
      assert ([a] + t)[j] == t[j - 1];
      if i > 0 {
        assert ([a] + t)[i] == t[i - 1];
      }
    }
  }

  /** Insertion sort by non-increasing key. The order among equal keys is not promised. */
  function SortDesc<T(==)>(s: seq<T>, key: T -> int): (r: seq<T>)
    ensures NonIncreasing(r, key)
    ensures multiset(r) == multiset(s)
    decreases |s|
  {
    if |s| == 0 then []
    else
      assert s == [s[0]] + s[1..];
      Insert(s[0], SortDesc(s[1..], key), key)
  }

  /** Sorting keeps the length and the elements. */
  lemma SortDescElements<T>(s: seq<T>, key: T -> int)
    ensures |SortDesc(s, key)| == |s|
    ensures forall x :: x in SortDesc(s, key) <==> x in s
  {
    var r := SortDesc(s, key);
    assert |r| == |multiset(r)| == |multiset(s)| == |s|;
    forall x
      ensures x in r <==> x in s
    {
      assert x in r <==> x in multiset(r);
      assert x in s <==> x in multiset(s);
    }
  }
}
