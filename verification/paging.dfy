/** Page arithmetic for skip/limit pagination. */
module Paging {

  /** The least number of pages of `size` items that hold `n` items, as `Math.ceil(n / size)`. */
  function PageCount(n: nat, size: nat): (q: nat)
    requires size >= 1
    ensures q * size >= n
    ensures q == 0 || (q - 1) * size < n
  {
    var q := (n + size - 1) / size;
    assert q * size <= n + size - 1 < (q + 1) * size;
    q
  }

  /** Skips `skip` items and keeps at most `take` of those that follow. */
  function Window<T>(s: seq<T>, skip: nat, take: nat): (w: seq<T>)
    ensures |w| == if skip >= |s| then 0 else if take <= |s| - skip then take else |s| - skip
    ensures forall k :: 0 <= k < |w| ==> w[k] == s[skip + k]
  {
    if skip >= |s| then []
    else if take <= |s| - skip then s[skip..skip + take]
    else s[skip..]
  }

  /** A page that starts before the end is within the page count. */
  lemma PageWithinCount(n: nat, size: nat, page: nat)
    requires size >= 1 && page >= 1 && (page - 1) * size < n
    ensures page <= PageCount(n, size)
  {
    var q := PageCount(n, size);
    if q < page {
      MulMonotone(q, page - 1, size);
    }
  }

  lemma MulMonotone(a: nat, b: nat, c: nat)
    requires a <= b
    ensures a * c <= b * c
  {
  }
}
