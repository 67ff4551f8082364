/** `Array.prototype.filter` on sequences, with the facts the callers rely on. */
module Seqs {

  /** `s.filter(p)`: the elements of `s` that satisfy `p`, in their original order. */
  function Filter<T>(s: seq<T>, p: T -> bool): (r: seq<T>)
    ensures |r| <= |s|
    ensures forall i :: 0 <= i < |r| ==> p(r[i]) && r[i] in s
    decreases |s|
  {
    if s == [] then [] else (if p(s[0]) then [s[0]] else []) + Filter(s[1..], p)
  }

  /** An element is kept exactly when it occurs in the input and satisfies the predicate. */
  lemma {:induction false} FilterMembers<T>(s: seq<T>, p: T -> bool, x: T)
    ensures x in Filter(s, p) <==> x in s && p(x)
    decreases |s|
  {
    if s != [] {
      FilterMembers(s[1..], p, x);
      assert s == [s[0]] + s[1..];
    }
  }

  /** Filtering distributes over concatenation, so it keeps the relative order of elements. */
  lemma {:induction false} FilterAppend<T>(a: seq<T>, b: seq<T>, p: T -> bool)
    ensures Filter(a + b, p) == Filter(a, p) + Filter(b, p)
    decreases |a|
  {
    if a == [] {
      assert a + b == b;
    } else {
      assert (a + b)[0] == a[0];
      assert (a + b)[1..] == a[1..] + b;
      FilterAppend(a[1..], b, p);
    }
  }

  /** Filtering a sequence whose elements all pass changes nothing. */
  lemma {:induction false} FilterAllKept<T>(s: seq<T>, p: T -> bool)
    requires forall i :: 0 <= i < |s| ==> p(s[i])
    ensures Filter(s, p) == s
    decreases |s|
  {
    if s != [] {
      FilterAllKept(s[1..], p);
    }
  }

  /** A second filter with the same predicate changes nothing. */
  lemma {:induction false} FilterIdempotent<T>(s: seq<T>, p: T -> bool)
    ensures Filter(Filter(s, p), p) == Filter(s, p)
  {
    FilterAllKept(Filter(s, p), p);
  }

  /** Filtering never adds copies: every value occurs at most as often as in the input. */
  lemma {:induction false} FilterMultiset<T>(s: seq<T>, p: T -> bool)
    ensures multiset(Filter(s, p)) <= multiset(s)
    decreases |s|
  {
    if s != [] {
      FilterMultiset(s[1..], p);
      assert s == [s[0]] + s[1..];
    }
  }
}
