/** Sequence operations behind the list screens and the store's array
    fields: `Array.prototype.filter`, `slice(0, n)`, `[...new Set(xs)]`, and
    the store's `arrayUnion` / `arrayRemove` field transforms. */
module Seqs {

  /** `a` is `b` with some elements left out, the rest in the same order. */
  predicate Subseq<T(==,!new)>(a: seq<T>, b: seq<T>)
    decreases |b|
  {
    if |a| == 0 then true
    else if |b| == 0 then false
    else if a[0] == b[0] then Subseq(a[1..], b[1..])
    else Subseq(a, b[1..])
  }

  /** Every sequence is a subsequence of itself. */
  lemma {:induction false} SubseqRefl<T(!new)>(a: seq<T>)
    ensures Subseq(a, a)
    decreases |a|
  {
    if |a| > 0 {
      SubseqRefl(a[1..]);
    }
  }

  /** `xs.filter(p)`: the elements satisfying `p`, in their original order. */
  function Filter<T(!new)>(xs: seq<T>, p: T -> bool): (r: seq<T>)
    ensures |r| <= |xs|
    ensures forall x :: x in r <==> x in xs && p(x)
    decreases |xs|
  {
    if |xs| == 0 then []
    else if p(xs[0]) then [xs[0]] + Filter(xs[1..], p)
    else Filter(xs[1..], p)
  }

  /** Filtering distributes over concatenation. */
  lemma {:induction false} FilterAppend<T(!new)>(a: seq<T>, b: seq<T>, p: T -> bool)
    ensures Filter(a + b, p) == Filter(a, p) + Filter(b, p)
    decreases |a|
  {
    if |a| == 0 {
      assert a + b == b;
    } else {
      assert (a + b)[0] == a[0];
      assert (a + b)[1..] == a[1..] + b;
      FilterAppend(a[1..], b, p);
    }
  }

  /** Filtering keeps the original order: the result is a subsequence. */
  lemma {:induction false} FilterIsSubseq<T(!new)>(xs: seq<T>, p: T -> bool)
    ensures Subseq(Filter(xs, p), xs)
    decreases |xs|
  {
    if |xs| > 0 {
      FilterIsSubseq(xs[1..], p);
      var r := Filter(xs, p);
      if p(xs[0]) {
        assert r[1..] == Filter(xs[1..], p);
      } else if |r| > 0 {
        assert p(r[0]);
      }
    }
  }

  /** Removing the head of a subsequence keeps it a subsequence. */
  lemma {:induction false} SubseqDrop<T(!new)>(a: seq<T>, b: seq<T>)
    requires |a| > 0 && Subseq(a, b)
    ensures Subseq(a[1..], b)
    decreases |b|, 1
  {
    if |b| > 0 {
      if a[0] != b[0] {
        SubseqDrop(a, b[1..]);
      }
      SubseqCons(a[1..], b);
    }
  }

  /** A subsequence of the tail of `b` is one of `b`. */
  lemma {:induction false} SubseqCons<T(!new)>(a: seq<T>, b: seq<T>)
    requires |b| > 0 && Subseq(a, b[1..])
    ensures Subseq(a, b)
    decreases |b|, 0
  {
    if |a| > 0 && a[0] == b[0] {
      SubseqDrop(a, b[1..]);
    }
  }

  /** A filter that keeps everything returns the list unchanged. */
  lemma {:induction false} FilterAll<T(!new)>(xs: seq<T>, p: T -> bool)
    requires forall x :: x in xs ==> p(x)
    ensures Filter(xs, p) == xs
    decreases |xs|
  {
    if |xs| > 0 {
      FilterAll(xs[1..], p);
    }
  }

  /** Applying the same filter twice equals applying it once. */
  lemma FilterIdempotent<T(!new)>(xs: seq<T>, p: T -> bool)
    ensures Filter(Filter(xs, p), p) == Filter(xs, p)
  {
    FilterAll(Filter(xs, p), p);
  }

  /** `xs.slice(0, n)`. */
  function Take<T>(xs: seq<T>, n: nat): (r: seq<T>)
    ensures |r| == if |xs| < n then |xs| else n
    ensures r == xs[..|r|]
  {
    if |xs| < n then xs else xs[..n]
  }

  /** Cutting a list and a longer list with the same start to the same
      length gives prefixes of each other. */
  lemma TakeOfPrefix<T>(a: seq<T>, b: seq<T>, n: nat)
    requires |a| <= |b| && a == b[..|a|]
    ensures |Take(a, n)| <= |Take(b, n)| && Take(a, n) == Take(b, n)[..|Take(a, n)|]
  {
    var ta, tb := Take(a, n), Take(b, n);
    assert forall i :: 0 <= i < |ta| ==> ta[i] == a[i] == b[i] == tb[i];
  }

  /** A prefix is a subsequence. */
  lemma {:induction false} PrefixIsSubseq<T(!new)>(a: seq<T>, b: seq<T>)
    requires |a| <= |b| && a == b[..|a|]
    ensures Subseq(a, b)
    decreases |a|
  {
    if |a| > 0 {
      PrefixIsSubseq(a[1..], b[1..]);
    }
  }

  /** Subsequences compose. */
  lemma {:induction false} SubseqTrans<T(!new)>(a: seq<T>, b: seq<T>, c: seq<T>)
    requires Subseq(a, b) && Subseq(b, c)
    ensures Subseq(a, c)
    decreases |c|
  {
    if |a| > 0 && |c| > 0 {
      if b[0] == c[0] {
        if a[0] == b[0] {
          SubseqTrans(a[1..], b[1..], c[1..]);
        } else {
          SubseqTrans(a, b[1..], c[1..]);
        }
      } else {
        SubseqTrans(a, b, c[1..]);
        SubseqCons(a, c);
      }
    }
  }

  /** Number of occurrences of `x` in `xs`. */
  function Count<T(==,!new)>(xs: seq<T>, x: T): nat
    decreases |xs|
  {
    if |xs| == 0 then 0 else (if xs[0] == x then 1 else 0) + Count(xs[1..], x)
  }

  /** The store's `arrayRemove(x)`: every occurrence of `x` removed, the
      other elements kept in order. */
  function ArrayRemove<T(==,!new)>(xs: seq<T>, x: T): (r: seq<T>)
    ensures x !in r
    ensures forall y :: y != x ==> (y in r <==> y in xs)
    ensures forall y :: y != x ==> Count(r, y) == Count(xs, y)
    decreases |xs|
  {
    if |xs| == 0 then []
    else if xs[0] == x then ArrayRemove(xs[1..], x)
    else
      assert ([xs[0]] + ArrayRemove(xs[1..], x))[1..] == ArrayRemove(xs[1..], x);
      [xs[0]] + ArrayRemove(xs[1..], x)
  }

  /** Removing an absent element changes nothing. */
  lemma {:induction false} ArrayRemoveAbsent<T(!new)>(xs: seq<T>, x: T)
    requires x !in xs
    ensures ArrayRemove(xs, x) == xs
    decreases |xs|
  {
    if |xs| > 0 {
      ArrayRemoveAbsent(xs[1..], x);
    }
  }

  /** The store's `arrayUnion(x)`: `x` appended unless already present. */
  function ArrayUnion<T(==,!new)>(xs: seq<T>, x: T): (r: seq<T>)
    ensures x in r && Count(r, x) == (if x in xs then Count(xs, x) else 1)
    ensures forall y :: y != x ==> Count(r, y) == Count(xs, y)
    ensures forall y :: y in r <==> y in xs || y == x
    ensures |r| == |xs| + (if x in xs then 0 else 1) && r[..|xs|] == xs
  {
    if x in xs then xs else
      CountAppend(xs, x);
      CountAbsent(xs, x);
      xs + [x]
  }

  /** Count over an appended element. */
  lemma {:induction false} CountAppend<T(!new)>(xs: seq<T>, x: T)
    ensures forall y :: Count(xs + [x], y) == Count(xs, y) + (if y == x then 1 else 0)
    decreases |xs|
  {
    if |xs| > 0 {
      CountAppend(xs[1..], x);
      assert (xs + [x])[1..] == xs[1..] + [x];
    }
  }

  /** An absent element occurs zero times. */
  lemma {:induction false} CountAbsent<T(!new)>(xs: seq<T>, x: T)
    ensures x !in xs <==> Count(xs, x) == 0
    decreases |xs|
  {
    if |xs| > 0 {
      CountAbsent(xs[1..], x);
    }
  }

  /** Union followed by removal of an element that was absent restores the
      array exactly. */
  lemma UnionThenRemove<T(!new)>(xs: seq<T>, x: T)
    requires x !in xs
    ensures ArrayRemove(ArrayUnion(xs, x), x) == xs
  {
    ArrayRemoveAppend(xs, x);
  }

  lemma {:induction false} ArrayRemoveAppend<T(!new)>(xs: seq<T>, x: T)
    requires x !in xs
    ensures ArrayRemove(xs + [x], x) == xs
    decreases |xs|
  {
    if |xs| == 0 {
      assert ArrayRemove([x], x) == ArrayRemove([x][1..], x);
    } else {
      assert (xs + [x])[1..] == xs[1..] + [x];
      ArrayRemoveAppend(xs[1..], x);
    }
  }

  /** Whether no element occurs twice. */
  predicate Distinct<T(==,!new)>(xs: seq<T>) {
    forall i, j :: 0 <= i < j < |xs| ==> xs[i] != xs[j]
  }

  /** `[...new Set(xs)]`: every element of `xs` exactly once. */
  function Dedup<T(==,!new)>(xs: seq<T>): (r: seq<T>)
    ensures Distinct(r)
    ensures forall x :: x in r <==> x in xs
    ensures |r| <= |xs|
  {
    DedupFrom(xs, [])
  }

  /** The elements of `xs` not in `seen`, first occurrences only, after
      `seen`. */
  function DedupFrom<T(==,!new)>(xs: seq<T>, seen: seq<T>): (r: seq<T>)
    requires Distinct(seen)
    ensures |seen| <= |r| <= |xs| + |seen| && r[..|seen|] == seen
    ensures Distinct(r)
    ensures forall x :: x in r <==> x in xs || x in seen
    decreases |xs|
  {
    if |xs| == 0 then seen
    else if xs[0] in seen then DedupFrom(xs[1..], seen)
    else DedupFrom(xs[1..], seen + [xs[0]])
  }
}
