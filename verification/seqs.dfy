/** Sequence operations that stand in for the document store's queries:
    filtering (`find` with a condition), counting (`countDocuments`),
    descending sort (`sort({ key: -1 })`) and the numeric folds the
    controllers apply to the documents they get back. */
module Seqs {

  // ---------------------------------------------------------------------------
  // Counting and filtering
  // ---------------------------------------------------------------------------

  /** How many elements of `s` satisfy `p`. */
  function Count<T>(s: seq<T>, p: T -> bool): (n: nat)
    ensures n <= |s|
  {
    if |s| == 0 then 0 else (if p(s[0]) then 1 else 0) + Count(s[1..], p)
  }

  /** The elements of `s` that satisfy `p`, in their original order. */
  function Filter<T(!new)>(s: seq<T>, p: T -> bool): (r: seq<T>)
    ensures |r| == Count(s, p)
    ensures forall x :: x in r <==> x in s && p(x)
    ensures multiset(r) <= multiset(s)
    ensures forall x :: p(x) ==> multiset(r)[x] == multiset(s)[x]
  {
    if |s| == 0 then []
    else
      assert s == [s[0]] + s[1..];
      if p(s[0]) then [s[0]] + Filter(s[1..], p) else Filter(s[1..], p)
  }

  lemma {:induction false} CountAppend<T>(a: seq<T>, b: seq<T>, p: T -> bool)
    ensures Count(a + b, p) == Count(a, p) + Count(b, p)
  {
    if |a| == 0 {
      assert a + b == b;
    } else {
      assert (a + b)[1..] == a[1..] + b;
      CountAppend(a[1..], b, p);
    }
  }

  lemma CountSplit<T>(s: seq<T>, i: nat, p: T -> bool)
    requires i <= |s|
    ensures Count(s, p) == Count(s[..i], p) + Count(s[i..], p)
  {
    assert s == s[..i] + s[i..];
    CountAppend(s[..i], s[i..], p);
  }

  /** When every element satisfies `p`, the count is the length. */
  lemma {:induction false} CountAll<T>(s: seq<T>, p: T -> bool)
    requires forall i :: 0 <= i < |s| ==> p(s[i])
    ensures Count(s, p) == |s|
  {
    if |s| > 0 {
      assert p(s[0]);
      CountAll(s[1..], p);
    }
  }

  /** When no element satisfies `p`, the count is zero. */
  lemma {:induction false} CountNone<T>(s: seq<T>, p: T -> bool)
    requires forall i :: 0 <= i < |s| ==> !p(s[i])
    ensures Count(s, p) == 0
  {
    if |s| > 0 {
      assert !p(s[0]);
      CountNone(s[1..], p);
    }
  }

  /** A witness in `s` makes the count positive. */
  lemma CountWitness<T(!new)>(s: seq<T>, p: T -> bool, x: T)
    requires x in s && p(x)
    ensures Count(s, p) >= 1
  {
    assert x in Filter(s, p);
  }

  /** An element that fails `p` keeps the count below the length. */
  lemma {:induction false} CountMissing<T>(s: seq<T>, p: T -> bool, k: nat)
    requires k < |s| && !p(s[k])
    ensures Count(s, p) < |s|
  {
    if k > 0 {
      CountMissing(s[1..], p, k - 1);
    }
  }

  /** A weaker condition counts at least as many elements, and strictly more
      when some element meets it but not the stronger one. */
  lemma {:induction false} CountWeaker<T>(s: seq<T>, p: T -> bool, q: T -> bool)
    requires forall i :: 0 <= i < |s| ==> p(s[i]) ==> q(s[i])
    ensures Count(s, p) <= Count(s, q)
    ensures (exists i :: 0 <= i < |s| && q(s[i]) && !p(s[i])) ==> Count(s, p) < Count(s, q)
  {
    if |s| > 0 {
      assert forall i :: 1 <= i < |s| ==> s[1..][i - 1] == s[i];
      CountWeaker(s[1..], p, q);
      if exists i :: 0 <= i < |s| && q(s[i]) && !p(s[i]) {
        var i :| 0 <= i < |s| && q(s[i]) && !p(s[i]);
        if i > 0 {
          assert q(s[1..][i - 1]) && !p(s[1..][i - 1]);
        }
      }
    }
  }

  // ---------------------------------------------------------------------------
  // Sums and extremes of a sequence of reals
  // ---------------------------------------------------------------------------

  /** `s.reduce((a, x) => a + x, 0)`; over exact reals the fold order is immaterial. */
  function Sum(s: seq<real>): real
  {
    if |s| == 0 then 0.0 else s[0] + Sum(s[1..])
  }

  /** `Math.min(...s)` on a non-empty sequence. */
  function MinOf(s: seq<real>): (r: real)
    requires |s| > 0
    ensures r in s
    ensures forall i :: 0 <= i < |s| ==> r <= s[i]
  {
    if |s| == 1 then s[0]
    else
      var m := MinOf(s[1..]);
      assert forall i :: 1 <= i < |s| ==> s[i] == s[1..][i - 1];
      if s[0] <= m then s[0] else m
  }

  /** `Math.max(...s)` on a non-empty sequence. */
  function MaxOf(s: seq<real>): (r: real)
    requires |s| > 0
    ensures r in s
    ensures forall i :: 0 <= i < |s| ==> s[i] <= r
  {
    if |s| == 1 then s[0]
    else
      var m := MaxOf(s[1..]);
      assert forall i :: 1 <= i < |s| ==> s[i] == s[1..][i - 1];
      if s[0] >= m then s[0] else m
  }

  /** Every element lies in [lo, hi], hence the sum lies in [n*lo, n*hi]. */
  lemma {:induction false} SumBounds(s: seq<real>, lo: real, hi: real)
    requires forall i :: 0 <= i < |s| ==> lo <= s[i] <= hi
    ensures |s| as real * lo <= Sum(s) <= |s| as real * hi
  {
    if |s| > 0 {
      assert forall i :: 1 <= i < |s| ==> s[i] == s[1..][i - 1];
      SumBounds(s[1..], lo, hi);
      assert |s| as real * lo == lo + (|s| - 1) as real * lo;
      assert |s| as real * hi == hi + (|s| - 1) as real * hi;
    }
  }

  /** The mean of a non-empty sequence lies between its minimum and maximum. */
  lemma MeanBetweenMinAndMax(s: seq<real>)
    requires |s| > 0
    ensures MinOf(s) <= Sum(s) / |s| as real <= MaxOf(s)
  {
    MeanWithinBounds(s, MinOf(s), MaxOf(s));
  }

  /** A bound on every element bounds the mean. */
  lemma MeanWithinBounds(s: seq<real>, lo: real, hi: real)
    requires |s| > 0
    requires forall i :: 0 <= i < |s| ==> lo <= s[i] <= hi
    ensures lo <= Sum(s) / |s| as real <= hi
  {
    SumBounds(s, lo, hi);
    MeanBetween(Sum(s), |s| as real, lo, hi);
  }

  /** Dividing `n*lo <= total <= n*hi` through by a positive `n`. */
  lemma MeanBetween(total: real, n: real, lo: real, hi: real)
    requires n > 0.0
    requires n * lo <= total <= n * hi
    ensures lo <= total / n <= hi
  {
  }

  // ---------------------------------------------------------------------------
  // Descending sort
  // ---------------------------------------------------------------------------

  /** `s` is ordered from the largest key to the smallest. */
  ghost predicate SortedDesc<T>(s: seq<T>, key: T -> real) {
    forall i, j :: 0 <= i < j < |s| ==> key(s[i]) >= key(s[j])
  }

  /** Places `x` before the first element whose key does not exceed its own. */
  function Insert<T(!new)>(x: T, s: seq<T>, key: T -> real): (r: seq<T>)
    requires SortedDesc(s, key)
    ensures |r| == |s| + 1
    ensures multiset(r) == multiset(s) + multiset{x}
    ensures forall y :: y in r <==> y == x || y in s
    ensures SortedDesc(r, key)
  {
    if |s| == 0 || key(x) >= key(s[0]) then [x] + s
    else
      var t := Insert(x, s[1..], key);
      assert s == [s[0]] + s[1..];
      assert forall y :: y in t ==> key(y) <= key(s[0]);
      [s[0]] + t
  }

  /** `sort({ key: -1 })`: a permutation of `s` in descending key order.
      The document store leaves the order of equal keys unspecified; the model
      fixes one such order and every property below holds for it. */
  function SortDesc<T(!new)>(s: seq<T>, key: T -> real): (r: seq<T>)
    ensures |r| == |s|
    ensures multiset(r) == multiset(s)
    ensures SortedDesc(r, key)
  {
    if |s| == 0 then []
    else
      assert s == [s[0]] + s[1..];
      Insert(s[0], SortDesc(s[1..], key), key)
  }

  /** Two sequences with the same multiset have the same members. */
  lemma PermutationSameMembers<T(!new)>(a: seq<T>, b: seq<T>)
    requires multiset(a) == multiset(b)
    ensures forall x :: x in a <==> x in b
  {
    forall x
      ensures x in a <==> x in b
    {
      assert x in a <==> x in multiset(a);
      assert x in b <==> x in multiset(b);
    }
  }

  lemma {:induction false} CountInsert<T(!new)>(x: T, s: seq<T>, key: T -> real, p: T -> bool)
    requires SortedDesc(s, key)
    ensures Count(Insert(x, s, key), p) == (if p(x) then 1 else 0) + Count(s, p)
  {
    if |s| == 0 || key(x) >= key(s[0]) {
      assert ([x] + s)[1..] == s;
    } else {
      var t := Insert(x, s[1..], key);
      assert ([s[0]] + t)[1..] == t;
      CountInsert(x, s[1..], key, p);
    }
  }

  /** Sorting does not change how many elements satisfy a condition. */
  lemma {:induction false} CountSortDesc<T(!new)>(s: seq<T>, key: T -> real, p: T -> bool)
    ensures Count(SortDesc(s, key), p) == Count(s, p)
  {
    if |s| > 0 {
      CountSortDesc(s[1..], key, p);
      CountInsert(s[0], SortDesc(s[1..], key), key, p);
    }
  }

  /** Truncation to a positive `limit`; a limit of 0 keeps everything, as a
      store cursor's `limit(0)` does. */
  function Take<T>(s: seq<T>, limit: nat): (r: seq<T>)
    ensures |r| == if limit == 0 || |s| <= limit then |s| else limit
    ensures r <= s
    ensures multiset(r) <= multiset(s)
  {
    if limit == 0 || |s| <= limit then s
    else
      assert s == s[..limit] + s[limit..];
      s[..limit]
  }
}
