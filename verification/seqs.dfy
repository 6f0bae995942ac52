/** Sequence helpers: the optional value, the order-preserving filter behind
    every list comprehension of the core, and the first-match search behind
    every `for ... if ...: return` scan. */
module Seqs {

  datatype Option<+T> = None | Some(value: T)

  /** A value, or the fault that stopped the operation. */
  datatype Result<+T, +E> = Ok(value: T) | Err(error: E)

  /** `a` can be obtained from `b` by deleting elements (order kept). */
  predicate IsSubsequence<T(==)>(a: seq<T>, b: seq<T>)
    decreases |b|
  {
    if a == [] then true
    else if b == [] then false
    else if a[0] == b[0] then IsSubsequence(a[1..], b[1..])
    else IsSubsequence(a, b[1..])
  }

  lemma {:induction false} SubsequenceCons<T>(a: seq<T>, x: T, b: seq<T>)
    requires IsSubsequence(a, b)
    ensures IsSubsequence(a, [x] + b)
    decreases |a| + |b| + 1
  {
    var xb := [x] + b;
    assert xb[1..] == b;
    if a != [] && a[0] == x {
      SubsequenceDropHead(a, b);
    }
  }

  lemma {:induction false} SubsequenceDropHead<T>(a: seq<T>, b: seq<T>)
    requires a != [] && IsSubsequence(a, b)
    ensures IsSubsequence(a[1..], b)
    decreases |a| + |b|
  {
    if a[0] == b[0] {
      SubsequenceCons(a[1..], b[0], b[1..]);
      assert [b[0]] + b[1..] == b;
    } else {
      SubsequenceDropHead(a, b[1..]);
      if a[1..] != [] && a[1..][0] == b[0] {
        SubsequenceCons(a[1..], b[0], b[1..]);
        assert [b[0]] + b[1..] == b;
      }
    }
  }

  /** `[x for x in s if p(x)]`: the elements of `s` that satisfy `p`, each
      as often as in `s`, in the order of `s`. */
  function Filter<T(!new)>(s: seq<T>, p: T -> bool): (r: seq<T>)
    ensures |r| <= |s|
    ensures forall x :: multiset(r)[x] == if p(x) then multiset(s)[x] else 0
    ensures forall x :: x in r <==> x in s && p(x)
    ensures IsSubsequence(r, s)
  {
    if s == [] then []
    else
      var rest := Filter(s[1..], p);
      assert s == [s[0]] + s[1..];
      if p(s[0]) then
        assert ([s[0]] + rest)[1..] == rest;
        [s[0]] + rest
      else
        SubsequenceCons(rest, s[0], s[1..]);
        rest
  }

  /** Filtering a sequence with a first element. */
  lemma FilterCons<T(!new)>(x: T, s: seq<T>, p: T -> bool)
    ensures Filter([x] + s, p) == if p(x) then [x] + Filter(s, p) else Filter(s, p)
  {
    assert ([x] + s)[1..] == s;
  }

  /** Two neighbours of which at most one is kept can swap places. */
  lemma FilterSwap<T(!new)>(a: T, b: T, s: seq<T>, p: T -> bool)
    requires !(p(a) && p(b))
    ensures Filter([a] + ([b] + s), p) == Filter([b] + ([a] + s), p)
  {
    FilterCons(a, [b] + s, p);
    FilterCons(b, s, p);
    FilterCons(b, [a] + s, p);
    FilterCons(a, s, p);
  }

  /** Filtering changes the length exactly when some element fails `p`. */
  lemma {:induction false} FilterShrinksIff<T(!new)>(s: seq<T>, p: T -> bool)
    ensures |Filter(s, p)| < |s| <==> exists x :: x in s && !p(x)
  {
    if s != [] {
      var h, t := s[0], s[1..];
      FilterShrinksIff(t, p);
      assert s == [h] + t;
      FilterCons(h, t, p);
      if p(h) {
        assert |Filter(s, p)| == 1 + |Filter(t, p)|;
        assert (exists x :: x in s && !p(x)) <==> exists x :: x in t && !p(x);
      } else {
        assert h in s && !p(h);
      }
    }
  }

  /** Filtering twice by the same predicate is filtering once. */
  lemma {:induction false} FilterIdempotent<T(!new)>(s: seq<T>, p: T -> bool)
    ensures Filter(Filter(s, p), p) == Filter(s, p)
  {
    if s != [] {
      FilterIdempotent(s[1..], p);
      var rest := Filter(s[1..], p);
      if p(s[0]) {
        assert ([s[0]] + rest)[1..] == rest;
      }
    }
  }

  /** `Filter` without its contract, to reason about concatenation. */
  function Kept<T>(s: seq<T>, p: T -> bool): seq<T> {
    if s == [] then [] else (if p(s[0]) then [s[0]] else []) + Kept(s[1..], p)
  }

  lemma {:induction false} KeptIsFilter<T(!new)>(s: seq<T>, p: T -> bool)
    ensures Kept(s, p) == Filter(s, p)
  {
    if s != [] {
      KeptIsFilter(s[1..], p);
    }
  }

  lemma {:induction false} KeptAppend<T>(a: seq<T>, b: seq<T>, p: T -> bool)
    ensures Kept(a + b, p) == Kept(a, p) + Kept(b, p)
  {
    if a == [] {
      assert a + b == b;
    } else {
      assert (a + b)[0] == a[0];
      assert (a + b)[1..] == a[1..] + b;
      KeptAppend(a[1..], b, p);
      var x := if p(a[0]) then [a[0]] else [];
      assert x + (Kept(a[1..], p) + Kept(b, p)) == (x + Kept(a[1..], p)) + Kept(b, p);
    }
  }

  /** Filtering distributes over concatenation. */
  lemma FilterAppend<T(!new)>(a: seq<T>, b: seq<T>, p: T -> bool)
    ensures Filter(a + b, p) == Filter(a, p) + Filter(b, p)
  {
    KeptAppend(a, b, p);
    KeptIsFilter(a + b, p);
    KeptIsFilter(a, p);
    KeptIsFilter(b, p);
  }

  /** Filtering a prefix gives a prefix of the filtered sequence. */
  lemma FilterPrefix<T(!new)>(s: seq<T>, n: nat, p: T -> bool)
    requires n <= |s|
    ensures Filter(s[..n], p) <= Filter(s, p)
  {
    assert s == s[..n] + s[n..];
    FilterAppend(s[..n], s[n..], p);
  }

  /** Nothing is kept exactly when no element satisfies `p`. */
  lemma FilterEmptyIff<T(!new)>(s: seq<T>, p: T -> bool)
    ensures Filter(s, p) == [] <==> forall x :: x in s ==> !p(x)
  {
    var r := Filter(s, p);
    if r != [] {
      assert r[0] in r;
    }
  }

  /** A predicate every element satisfies keeps the whole sequence. */
  lemma {:induction false} FilterAll<T(!new)>(s: seq<T>, p: T -> bool)
    requires forall i :: 0 <= i < |s| ==> p(s[i])
    ensures Filter(s, p) == s
  {
    if s != [] {
      FilterAll(s[1..], p);
      assert s == [s[0]] + s[1..];
    }
  }

  /** The counts of two disjoint predicates add up to the count of their
      union. */
  lemma {:induction false} FilterDisjointCounts<T(!new)>(s: seq<T>, p: T -> bool, q: T -> bool, pq: T -> bool)
    requires forall x :: pq(x) == (p(x) || q(x))
    requires forall x :: !(p(x) && q(x))
    ensures |Filter(s, p)| + |Filter(s, q)| == |Filter(s, pq)|
  {
    if s != [] {
      FilterDisjointCounts(s[1..], p, q, pq);
    }
  }

  /** The index of the first element satisfying `p`, if any. */
  function FirstWhere<T>(s: seq<T>, p: T -> bool): (r: Option<nat>)
    ensures r.Some? ==> r.value < |s| && p(s[r.value])
    ensures r.Some? ==> forall j :: 0 <= j < r.value ==> !p(s[j])
    ensures r.None? <==> forall j :: 0 <= j < |s| ==> !p(s[j])
  {
    if s == [] then None
    else if p(s[0]) then Some(0)
    else
      match FirstWhere(s[1..], p)
      case None => None
      case Some(k) => Some(k + 1)
  }

  /** `x` is the first element of `s` that satisfies `p`. */
  predicate IsFirst<T(==)>(s: seq<T>, p: T -> bool, x: T) {
    exists k :: 0 <= k < |s| && s[k] == x && p(x) && forall j :: 0 <= j < k ==> !p(s[j])
  }

  /** `next((x for x in s if p(x)), None)`. */
  function FirstSuch<T>(s: seq<T>, p: T -> bool): (r: Option<T>)
    ensures r.Some? ==> IsFirst(s, p, r.value)
    ensures r.None? <==> forall j :: 0 <= j < |s| ==> !p(s[j])
  {
    match FirstWhere(s, p)
    case None => None
    case Some(k) => Some(s[k])
  }

  /** The first match is the element at the first index that satisfies
      `p`. */
  lemma FirstSuchAt<T>(s: seq<T>, p: T -> bool, k: int)
    requires 0 <= k < |s| && p(s[k]) && forall j :: 0 <= j < k ==> !p(s[j])
    ensures FirstSuch(s, p) == Some(s[k])
  {
    var r := FirstSuch(s, p);
    var i :| 0 <= i < |s| && s[i] == r.value && p(r.value) && forall j :: 0 <= j < i ==> !p(s[j]);
  }

  /** The first-match scan written as the loop the source runs. */
  method FindFirst<T>(s: seq<T>, p: T -> bool) returns (r: Option<nat>)
    ensures r == FirstWhere(s, p)
  {
    var i := 0;
    while i < |s|
      invariant 0 <= i <= |s|
      invariant forall j :: 0 <= j < i ==> !p(s[j])
    {
      if p(s[i]) {
        return Some(i);
      }
      i := i + 1;
    }
    return None;
  }
}
