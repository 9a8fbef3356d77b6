/** Order-preserving list operations: the `filter`, `map` and `slice` of JavaScript arrays. */
module Seqs {

  /** `r` can be obtained from `s` by deleting elements, keeping the rest in order. */
  predicate IsSubseq<T(==)>(r: seq<T>, s: seq<T>)
    decreases |s|
  {
    if r == [] then true
    else if s == [] then false
    else (r[0] == s[0] && IsSubseq(r[1..], s[1..])) || IsSubseq(r, s[1..])
  }

  /** `Array.prototype.filter`: the elements of `s` that satisfy `p`, in their original order. */
  function Filter<T(==)>(p: T -> bool, s: seq<T>): (r: seq<T>)
    ensures |r| <= |s|
    ensures forall x :: x in r ==> x in s && p(x)
    ensures forall x :: x in s && p(x) ==> x in r
    ensures IsSubseq(r, s)
  {
    if s == [] then []
    else if p(s[0]) then [s[0]] + Filter(p, s[1..])
    else Filter(p, s[1..])
  }

  /** `Array.prototype.map`. */
  function MapSeq<T, U>(f: T -> U, s: seq<T>): (r: seq<U>)
    ensures |r| == |s|
    ensures forall i :: 0 <= i < |s| ==> r[i] == f(s[i])
  {
    if s == [] then [] else [f(s[0])] + MapSeq(f, s[1..])
  }

  /** `Array.prototype.slice(0, n)`: the first `n` elements, or all of them when there are fewer. */
  function Take<T>(s: seq<T>, n: nat): (r: seq<T>)
    ensures |r| == if |s| <= n then |s| else n
    ensures forall i :: 0 <= i < |r| ==> r[i] == s[i]
  {
    if |s| <= n then s else s[..n]
  }

  /** Replaces every element that satisfies `p` by `f` of it: `s.map(x => p(x) ? f(x) : x)`. */
  function MapWhere<T>(p: T -> bool, f: T -> T, s: seq<T>): (r: seq<T>)
    ensures |r| == |s|
    ensures forall i :: 0 <= i < |s| ==> r[i] == if p(s[i]) then f(s[i]) else s[i]
  {
    if s == [] then [] else [if p(s[0]) then f(s[0]) else s[0]] + MapWhere(p, f, s[1..])
  }

  /**
   * The position of the first element at or after `k` that satisfies `p`, or `|s|` when there
   * is none: the scan of `Array.prototype.find`.
   */
  function FindFrom<T>(p: T -> bool, s: seq<T>, k: nat): (i: nat)
    requires k <= |s|
    ensures k <= i <= |s|
    ensures i < |s| ==> p(s[i])
    ensures forall j :: k <= j < i ==> !p(s[j])
    decreases |s| - k
  {
    if k == |s| || p(s[k]) then k else FindFrom(p, s, k + 1)
  }

  /** Mapping a prefix gives the prefix of the mapped list. */
  lemma MapSeqOfPrefix<T, U>(f: T -> U, s: seq<T>, k: nat)
    requires k <= |s|
    ensures MapSeq(f, s[..k]) == MapSeq(f, s)[..k]
  {
  }

  /** Filtering with a predicate that keeps everything returns the list unchanged. */
  lemma {:induction false} FilterAll<T>(p: T -> bool, s: seq<T>)
    requires forall x :: x in s ==> p(x)
    ensures Filter(p, s) == s
  {
    if s != [] {
      FilterAll(p, s[1..]);
    }
  }

  /** Filtering with a predicate that keeps nothing returns the empty list. */
  lemma FilterNone<T>(p: T -> bool, s: seq<T>)
    requires forall x :: x in s ==> !p(x)
    ensures Filter(p, s) == []
  {
  }

  /** Two predicates that agree on the elements of `s` filter it alike. */
  lemma {:induction false} FilterExt<T>(p: T -> bool, q: T -> bool, s: seq<T>)
    requires forall x :: x in s ==> p(x) == q(x)
    ensures Filter(p, s) == Filter(q, s)
  {
    if s != [] {
      FilterExt(p, q, s[1..]);
    }
  }

  /** Filtering with a stronger predicate gives a sub-sequence of filtering with a weaker one. */
  lemma {:induction false} FilterStronger<T>(p: T -> bool, q: T -> bool, s: seq<T>)
    requires forall x :: x in s && q(x) ==> p(x)
    ensures IsSubseq(Filter(q, s), Filter(p, s))
  {
    if s != [] {
      FilterStronger(p, q, s[1..]);
      var fq, fp := Filter(q, s), Filter(p, s);
      if q(s[0]) {
        assert fq[0] == fp[0] && fq[1..] == Filter(q, s[1..]) && fp[1..] == Filter(p, s[1..]);
      } else if p(s[0]) {
        assert fp[1..] == Filter(p, s[1..]);
        SubseqOfTail(fq, fp);
      }
    }
  }

  /** A sub-sequence of the tail of `s` is a sub-sequence of `s`. */
  lemma SubseqOfTail<T>(r: seq<T>, s: seq<T>)
    requires s != [] && IsSubseq(r, s[1..])
    ensures IsSubseq(r, s)
  {
  }

  /** Filtering twice is filtering once with both predicates. */
  lemma {:induction false} FilterFilter<T>(p: T -> bool, q: T -> bool, pq: T -> bool, s: seq<T>)
    requires forall x :: x in s ==> pq(x) == (p(x) && q(x))
    ensures Filter(p, Filter(q, s)) == Filter(pq, s)
  {
    if s != [] {
      FilterFilter(p, q, pq, s[1..]);
      if q(s[0]) {
        assert Filter(q, s) == [s[0]] + Filter(q, s[1..]);
      }
    }
  }

  /** A list splits into the elements that satisfy `p` and those that do not. */
  lemma {:induction false} FilterSplit<T>(p: T -> bool, notP: T -> bool, s: seq<T>)
    requires forall x :: x in s ==> notP(x) == !p(x)
    ensures |Filter(p, s)| + |Filter(notP, s)| == |s|
  {
    if s != [] {
      FilterSplit(p, notP, s[1..]);
    }
  }

  /** Applying the same replacement twice changes nothing more, when the replacement keeps `p`. */
  lemma MapWhereIdempotent<T>(p: T -> bool, f: T -> T, s: seq<T>)
    requires forall x :: p(x) ==> p(f(x)) && f(f(x)) == f(x)
    ensures MapWhere(p, f, MapWhere(p, f, s)) == MapWhere(p, f, s)
  {
  }

  /** Positions and contents of `s` with `x` spliced in at `k`. */
  lemma SpliceAt<T>(s: seq<T>, x: T, k: nat)
    requires k <= |s|
    ensures var r := s[..k] + [x] + s[k..];
      && |r| == |s| + 1 && r[k] == x
      && (forall i :: 0 <= i < k ==> r[i] == s[i])
      && (forall i :: k < i < |r| ==> r[i] == s[i - 1])
      && multiset(r) == multiset(s) + multiset{x}
  {
    assert s == s[..k] + s[k..];
  }
}
