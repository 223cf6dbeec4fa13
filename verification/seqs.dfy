/** Lookup, selection and distinctness over sequences of documents. */
module Seqs {
  import opened Results

  /** No element occurs twice. */
  ghost predicate NoDup<T>(s: seq<T>) {
    forall i, j :: 0 <= i < j < |s| ==> s[i] != s[j]
  }

  /** Position of the first element whose key is `k`, as a store's `findOne`. */
  function IndexOf<T, K(==)>(s: seq<T>, key: T -> K, k: K): (r: Option<nat>)
    ensures r.Some? ==> r.value < |s| && key(s[r.value]) == k
    ensures r.Some? ==> forall j :: 0 <= j < r.value ==> key(s[j]) != k
    ensures r.None? <==> forall j :: 0 <= j < |s| ==> key(s[j]) != k
    decreases |s|
  {
    if |s| == 0 then None
    else if key(s[0]) == k then Some(0)
    else
      match IndexOf(s[1..], key, k)
      case None => None
      case Some(i) => Some(i + 1)
  }

  /** Appending one element moves no existing first match; it can only supply a missing one. */
  lemma {:induction false} IndexOfAppend<T, K>(s: seq<T>, x: T, key: T -> K, k: K)
    ensures IndexOf(s + [x], key, k)
            == if IndexOf(s, key, k).Some? then IndexOf(s, key, k)
               else if key(x) == k then Some(|s|) else None
    decreases |s|
  {
    if |s| > 0 {
      assert (s + [x])[1..] == s[1..] + [x];
      IndexOfAppend(s[1..], x, key, k);
    }
  }

  /** The elements whose key is `k`, in their original order, as a store's `find`. */
  function Filter<T(!new), K(==)>(s: seq<T>, key: T -> K, k: K): (r: seq<T>)
    ensures |r| <= |s|
    ensures forall x :: x in r ==> x in s && key(x) == k
    decreases |s|
  {
    if |s| == 0 then []
    else
      var rest := Filter(s[1..], key, k);
      if key(s[0]) == k then [s[0]] + rest else rest
  }

  /** Filter keeps every element with key `k` as often as `s` holds it. */
  lemma {:induction false} FilterCount<T(!new), K>(s: seq<T>, key: T -> K, k: K)
    ensures forall x :: key(x) == k ==> multiset(Filter(s, key, k))[x] == multiset(s)[x]
    decreases |s|
  {
    if |s| > 0 {
      FilterCount(s[1..], key, k);
      assert s == [s[0]] + s[1..];
    }
  }

  lemma {:induction false} FilterAppend<T(!new), K>(a: seq<T>, b: seq<T>, key: T -> K, k: K)
    ensures Filter(a + b, key, k) == Filter(a, key, k) + Filter(b, key, k)
    decreases |a|
  {
    if |a| == 0 {
      assert a + b == b;
    } else {
      assert (a + b)[1..] == a[1..] + b;
      FilterAppend(a[1..], b, key, k);
    }
  }

  /** Some element of `s` has key `k`. */
  ghost predicate HasKey<T, K>(s: seq<T>, key: T -> K, k: K) {
    exists i :: 0 <= i < |s| && key(s[i]) == k
  }

  /** The distinct keys occurring in `s`, each once. */
  function DistinctKeys<T, K(==,!new)>(s: seq<T>, key: T -> K): (r: seq<K>)
    ensures NoDup(r)
    ensures forall k :: k in r <==> HasKey(s, key, k)
    decreases |s|
  {
    if |s| == 0 then []
    else
      var rest := DistinctKeys(s[1..], key);
      KeysShift(s, key);
      if key(s[0]) in rest then rest else [key(s[0])] + rest
  }

  /** A key occurs in a non-empty sequence iff it is the head's or occurs in the tail. */
  lemma KeysShift<T, K(!new)>(s: seq<T>, key: T -> K)
    requires |s| > 0
    ensures forall k :: HasKey(s, key, k) <==> key(s[0]) == k || HasKey(s[1..], key, k)
  {
    forall k | HasKey(s, key, k)
      ensures key(s[0]) == k || HasKey(s[1..], key, k)
    {
      var i :| 0 <= i < |s| && key(s[i]) == k;
      if i > 0 {
        assert key(s[1..][i - 1]) == k;
      }
    }
    forall k | HasKey(s[1..], key, k)
      ensures HasKey(s, key, k)
    {
      var i :| 0 <= i < |s[1..]| && key(s[1..][i]) == k;
      assert key(s[i + 1]) == k;
    }
  }

  /** A duplicate-free sequence has as many elements as the set of its elements. */
  lemma {:induction false} NoDupCardinality<T>(s: seq<T>)
    requires NoDup(s)
    ensures |set x | x in s| == |s|
    decreases |s|
  {
    if |s| > 0 {
      NoDupCardinality(s[1..]);
      assert (set x | x in s) == (set x | x in s[1..]) + {s[0]};
      assert s[0] !in s[1..];
    }
  }

  /** Duplicate-freedom depends only on the multiset of elements. */
  lemma NoDupPermutation<T>(a: seq<T>, b: seq<T>)
    requires NoDup(a)
    requires multiset(a) == multiset(b)
    ensures NoDup(b)
  {
    NoDupMultiplicity(a);
    forall i, j | 0 <= i < j < |b|
      ensures b[i] != b[j]
    {
      if b[i] == b[j] {
        DuplicateMultiplicity(b, i, j);
        assert false;
      }
    }
  }

  lemma {:induction false} NoDupMultiplicity<T>(s: seq<T>)
    requires NoDup(s)
    ensures forall x :: multiset(s)[x] <= 1
    decreases |s|
  {
    if |s| > 0 {
      NoDupMultiplicity(s[1..]);
      assert s == [s[0]] + s[1..];
      assert s[0] !in s[1..];
    }
  }

  lemma DuplicateMultiplicity<T>(s: seq<T>, i: nat, j: nat)
    requires i < j < |s| && s[i] == s[j]
    ensures multiset(s)[s[i]] >= 2
  {
    assert s == s[..i] + [s[i]] + s[i + 1..j] + [s[j]] + s[j + 1..];
  }

  /** The keys of `s`, position by position. */
  function Project<T, K>(s: seq<T>, key: T -> K): (r: seq<K>)
    ensures |r| == |s|
    ensures forall i :: 0 <= i < |s| ==> r[i] == key(s[i])
    decreases |s|
  {
    if |s| == 0 then [] else [key(s[0])] + Project(s[1..], key)
  }

  /** No two elements share a key, as a unique index on that field. */
  ghost predicate UniqueKeys<T, K>(s: seq<T>, key: T -> K) {
    forall i, j :: 0 <= i < j < |s| ==> key(s[i]) != key(s[j])
  }

  /** Selecting by a key nothing has selects nothing. */
  lemma FilterAbsent<T(!new), K>(s: seq<T>, key: T -> K, k: K)
    requires !HasKey(s, key, k)
    ensures Filter(s, key, k) == []
  {
  }
}
