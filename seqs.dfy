/**
 * Sequence helpers shared by the model: filtering (Python list
 * comprehensions with an `if`), subsequences, duplicate removal (what
 * converting a list to a Python `set` and back does to membership).
 */
module Seqs {

  /** No element occurs twice. */
  ghost predicate Distinct<T>(xs: seq<T>)
  {
    forall i, j :: 0 <= i < j < |xs| ==> xs[i] != xs[j]
  }

  /** A non-empty suffix is its first element followed by the rest. */
  lemma SliceHead<T>(xs: seq<T>, i: nat)
    requires i < |xs|
    ensures xs[i..] == [xs[i]] + xs[i + 1..]
  {
  }

  /** `xs` with every element failing `keep` removed, order kept. */
  function Filter<T(!new)>(xs: seq<T>, keep: T -> bool): (r: seq<T>)
    ensures |r| <= |xs|
    ensures forall x :: x in r <==> x in xs && keep(x)
  {
    if xs == [] then []
    else if keep(xs[0]) then [xs[0]] + Filter(xs[1..], keep)
    else Filter(xs[1..], keep)
  }

  /** The lists of `xss` joined end to end, in order. */
  function Flatten<T>(xss: seq<seq<T>>): seq<T>
  {
    if xss == [] then [] else xss[0] + Flatten(xss[1..])
  }

  /** `sub` can be obtained from `xs` by deleting elements. */
  ghost predicate IsSubsequence<T>(sub: seq<T>, xs: seq<T>)
    decreases |xs|
  {
    if sub == [] then true
    else if xs == [] then false
    else if sub[0] == xs[0] then IsSubsequence(sub[1..], xs[1..])
    else IsSubsequence(sub, xs[1..])
  }

  lemma {:induction false} FilterIsSubsequence<T(!new)>(xs: seq<T>, keep: T -> bool)
    ensures IsSubsequence(Filter(xs, keep), xs)
  {
    if xs != [] {
      FilterIsSubsequence(xs[1..], keep);
      if !keep(xs[0]) {
        SubsequenceOfTail(Filter(xs, keep), xs);
      }
    }
  }

  lemma {:induction false} SubsequenceOfTail<T>(sub: seq<T>, xs: seq<T>)
    requires xs != [] && IsSubsequence(sub, xs[1..])
    ensures IsSubsequence(sub, xs)
    decreases |xs|, 0
  {
    if sub != [] && sub[0] == xs[0] {
      DropHead(sub, xs[1..]);
    }
  }

  lemma {:induction false} DropHead<T>(sub: seq<T>, ys: seq<T>)
    requires sub != [] && IsSubsequence(sub, ys)
    ensures IsSubsequence(sub[1..], ys)
    decreases |ys|, 1
  {
    if sub[0] != ys[0] {
      DropHead(sub, ys[1..]);
    }
    SubsequenceOfTail(sub[1..], ys);
  }

  /** Filtering by a predicate and by its complement splits the length. */
  lemma {:induction false} FilterSplitsLength<T(!new)>(xs: seq<T>, keep: T -> bool, drop: T -> bool)
    requires forall x :: drop(x) == !keep(x)
    ensures |Filter(xs, keep)| + |Filter(xs, drop)| == |xs|
  {
    if xs != [] {
      FilterSplitsLength(xs[1..], keep, drop);
    }
  }

  /** Filtering keeps everything exactly when every element passes. */
  lemma {:induction false} FilterKeepsAll<T(!new)>(xs: seq<T>, keep: T -> bool)
    ensures Filter(xs, keep) == xs <==> forall x :: x in xs ==> keep(x)
  {
    if xs != [] {
      FilterKeepsAll(xs[1..], keep);
      if !keep(xs[0]) {
        assert |Filter(xs, keep)| <= |xs[1..]| < |xs|;
      }
    }
  }

  /** First occurrences of the elements of `xs`, in order. */
  function Dedup<T(==,!new)>(xs: seq<T>): (r: seq<T>)
    ensures forall x :: x in r <==> x in xs
    ensures Distinct(r)
    decreases |xs|
  {
    if xs == [] then []
    else
      var rest := Dedup(Filter(xs[1..], x => x != xs[0]));
      assert xs[0] !in rest;
      [xs[0]] + rest
  }
}
