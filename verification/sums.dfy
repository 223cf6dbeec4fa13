/** Sums over sequences, and the group-by identity: the per-key sums add up to the whole. */
module Sums {
  import opened Seqs

  /** The sum of `f` over the elements of `s`, as a store's `$sum`; 0 when `s` is empty. */
  function Sum<T>(s: seq<T>, f: T -> int): int
    decreases |s|
  {
    if |s| == 0 then 0 else f(s[0]) + Sum(s[1..], f)
  }

  lemma {:induction false} SumAppend<T>(a: seq<T>, b: seq<T>, f: T -> int)
    ensures Sum(a + b, f) == Sum(a, f) + Sum(b, f)
    decreases |a|
  {
    if |a| == 0 {
      assert a + b == b;
    } else {
      assert (a + b)[1..] == a[1..] + b;
      SumAppend(a[1..], b, f);
    }
  }

  /** A sum does not depend on the order of its terms. */
  lemma {:induction false} SumPermutation<T>(a: seq<T>, b: seq<T>, f: T -> int)
    requires multiset(a) == multiset(b)
    ensures Sum(a, f) == Sum(b, f)
    decreases |a|
  {
    if |a| == 0 {
      assert |b| == |multiset(b)| == 0;
    } else {
      assert a[0] in multiset(b);
      var i :| 0 <= i < |b| && b[i] == a[0];
      var rest := b[..i] + b[i + 1..];
      MultisetRemove(b, i);
      assert a == [a[0]] + a[1..];
      assert multiset(a[1..]) == multiset(a) - multiset{a[0]};
      SumPermutation(a[1..], rest, f);
      SumRemove(b, i, f);
    }
  }

  lemma MultisetRemove<T>(b: seq<T>, i: nat)
    requires i < |b|
    ensures multiset(b[..i] + b[i + 1..]) == multiset(b) - multiset{b[i]}
  {
    assert b == b[..i] + [b[i]] + b[i + 1..];
  }

  lemma SumRemove<T>(b: seq<T>, i: nat, f: T -> int)
    requires i < |b|
    ensures Sum(b, f) == f(b[i]) + Sum(b[..i] + b[i + 1..], f)
  {
    assert b == b[..i] + ([b[i]] + b[i + 1..]);
    SumAppend(b[..i], [b[i]] + b[i + 1..], f);
    assert ([b[i]] + b[i + 1..])[1..] == b[i + 1..];
    SumAppend(b[..i], b[i + 1..], f);
  }

  /** The sum, over `keys`, of the sum of `f` over the elements having that key. */
  function SumByKeys<T(!new), K(==)>(keys: seq<K>, s: seq<T>, key: T -> K, f: T -> int): int
    decreases |keys|
  {
    if |keys| == 0 then 0
    else Sum(Filter(s, key, keys[0]), f) + SumByKeys(keys[1..], s, key, f)
  }

  /** The sum, over `keys`, of `v` for the keys equal to `k` and 0 for the others. */
  function PickSum<K(==)>(keys: seq<K>, k: K, v: int): int
    decreases |keys|
  {
    if |keys| == 0 then 0
    else (if keys[0] == k then v else 0) + PickSum(keys[1..], k, v)
  }

  lemma {:induction false} PickSumOnce<K>(keys: seq<K>, k: K, v: int)
    requires NoDup(keys)
    ensures PickSum(keys, k, v) == if k in keys then v else 0
    decreases |keys|
  {
    if |keys| > 0 {
      PickSumOnce(keys[1..], k, v);
      assert keys[0] !in keys[1..];
      assert k in keys <==> k == keys[0] || k in keys[1..];
    }
  }

  lemma {:induction false} SumByKeysNil<T(!new), K>(keys: seq<K>, key: T -> K, f: T -> int)
    ensures SumByKeys(keys, [], key, f) == 0
    decreases |keys|
  {
    if |keys| > 0 {
      SumByKeysNil(keys[1..], key, f);
    }
  }

  /** Peeling the first element off `s` peels its value off exactly the sums of the keys equal to its key. */
  lemma {:induction false} SumByKeysCons<T(!new), K>(keys: seq<K>, s: seq<T>, key: T -> K, f: T -> int)
    requires |s| > 0
    ensures SumByKeys(keys, s, key, f) == PickSum(keys, key(s[0]), f(s[0])) + SumByKeys(keys, s[1..], key, f)
    decreases |keys|
  {
    if |keys| > 0 {
      SumByKeysCons(keys[1..], s, key, f);
    }
  }

  /** Group-by totals: when every element's key is among the distinct `keys`, summing the
      per-key sums gives the sum over the whole sequence. */
  lemma {:induction false} GroupSum<T(!new), K>(keys: seq<K>, s: seq<T>, key: T -> K, f: T -> int)
    requires NoDup(keys)
    requires forall i :: 0 <= i < |s| ==> key(s[i]) in keys
    ensures SumByKeys(keys, s, key, f) == Sum(s, f)
    decreases |s|
  {
    if |s| == 0 {
      SumByKeysNil(keys, key, f);
    } else {
      SumByKeysCons(keys, s, key, f);
      PickSumOnce(keys, key(s[0]), f(s[0]));
      GroupSum(keys, s[1..], key, f);
    }
  }

  /** The sum of `f` over the elements whose key is `k`, without building the selection. */
  function SumWhere<T, K(==)>(s: seq<T>, key: T -> K, k: K, f: T -> int): int
    decreases |s|
  {
    if |s| == 0 then 0 else (if key(s[0]) == k then f(s[0]) else 0) + SumWhere(s[1..], key, k, f)
  }

  lemma {:induction false} SumFilter<T(!new), K>(s: seq<T>, key: T -> K, k: K, f: T -> int)
    ensures Sum(Filter(s, key, k), f) == SumWhere(s, key, k, f)
    decreases |s|
  {
    if |s| > 0 {
      SumFilter(s[1..], key, k, f);
      if key(s[0]) == k {
        assert ([s[0]] + Filter(s[1..], key, k))[1..] == Filter(s[1..], key, k);
      }
    }
  }
}
