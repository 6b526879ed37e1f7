/** Sequence operations the model builds on: filtering and concatenating mapped blocks. */
module Seqs {

  /** The elements of `s` that `keep` accepts, in their order in `s`. */
  function Filter<T>(s: seq<T>, keep: T -> bool): (r: seq<T>)
    ensures |r| <= |s|
  {
    if s == [] then []
    else Filter(s[..|s| - 1], keep) + (if keep(s[|s| - 1]) then [s[|s| - 1]] else [])
  }

  lemma {:induction false} FilterAppend<T>(a: seq<T>, b: seq<T>, keep: T -> bool)
    ensures Filter(a + b, keep) == Filter(a, keep) + Filter(b, keep)
    decreases |b|
  {
    if b != [] {
      var b' := b[..|b| - 1];
      assert (a + b)[..|a + b| - 1] == a + b';
      FilterAppend(a, b', keep);
    } else {
      assert a + b == a;
    }
  }

  lemma {:induction false} FilterMembers<T>(s: seq<T>, keep: T -> bool)
    ensures forall x :: x in Filter(s, keep) <==> x in s && keep(x)
    decreases |s|
  {
    if s != [] {
      FilterMembers(s[..|s| - 1], keep);
      assert s == s[..|s| - 1] + [s[|s| - 1]];
    }
  }

  lemma {:induction false} FilterNone<T>(s: seq<T>, keep: T -> bool)
    requires forall x :: x in s ==> !keep(x)
    ensures Filter(s, keep) == []
    decreases |s|
  {
    if s != [] {
      assert s[|s| - 1] in s;
      assert forall x :: x in s[..|s| - 1] ==> x in s;
      FilterNone(s[..|s| - 1], keep);
    }
  }

  /** The blocks `f(x)` for the elements `x` of `s`, concatenated in the order of `s`. */
  function FlatMap<T, U>(s: seq<T>, f: T -> seq<U>): seq<U> {
    if s == [] then [] else FlatMap(s[..|s| - 1], f) + f(s[|s| - 1])
  }

  lemma FlatMapSnoc<T, U>(s: seq<T>, x: T, f: T -> seq<U>)
    ensures FlatMap(s + [x], f) == FlatMap(s, f) + f(x)
  {
  }

  lemma {:induction false} FlatMapAppend<T, U>(a: seq<T>, b: seq<T>, f: T -> seq<U>)
    ensures FlatMap(a + b, f) == FlatMap(a, f) + FlatMap(b, f)
    decreases |b|
  {
    if b == [] {
      assert a + b == a;
    } else {
      var b' := b[..|b| - 1];
      assert a + b == (a + b') + [b[|b| - 1]];
      FlatMapSnoc(a + b', b[|b| - 1], f);
      FlatMapAppend(a, b', f);
    }
  }

  /** Every element of the concatenation comes from the block of some element of `s`. */
  lemma {:induction false} FlatMapMembers<T, U>(s: seq<T>, f: T -> seq<U>)
    ensures forall y :: y in FlatMap(s, f) ==> exists x :: x in s && y in f(x)
    decreases |s|
  {
    if s != [] {
      FlatMapMembers(s[..|s| - 1], f);
      assert forall x :: x in s[..|s| - 1] ==> x in s;
    }
  }

  /** Taking out the element at index `j` takes it out of the multiset. */
  lemma RemoveAt<T>(s: seq<T>, j: nat)
    requires j < |s|
    ensures multiset(s[..j] + s[j + 1..]) == multiset(s) - multiset{s[j]}
  {
    assert s == s[..j] + [s[j]] + s[j + 1..];
  }

  /** The blocks of `s` are those before index `j`, the block of `s[j]` and those after it. */
  lemma {:induction false} FlatMapSplitAt<T, U>(s: seq<T>, j: nat, f: T -> seq<U>)
    requires j < |s|
    ensures FlatMap(s, f) == FlatMap(s[..j], f) + f(s[j]) + FlatMap(s[j + 1..], f)
    ensures FlatMap(s[..j] + s[j + 1..], f) == FlatMap(s[..j], f) + FlatMap(s[j + 1..], f)
  {
    var lo, x, hi := s[..j], s[j], s[j + 1..];
    var front := lo + [x];
    assert s == front + hi;
    FlatMapSnoc(lo, x, f);
    FlatMapAppend(front, hi, f);
    assert FlatMap(s, f) == FlatMap(front, f) + FlatMap(hi, f);
    FlatMapAppend(lo, hi, f);
  }

  /** Taking out the element at index `j` takes out its block. */
  lemma FlatMapRemoveAt<T, U>(s: seq<T>, j: nat, f: T -> seq<U>)
    requires j < |s|
    ensures multiset(s[..j] + s[j + 1..]) == multiset(s) - multiset{s[j]}
    ensures multiset(FlatMap(s, f)) == multiset(FlatMap(s[..j] + s[j + 1..], f)) + multiset(f(s[j]))
  {
    RemoveAt(s, j);
    FlatMapSplitAt(s, j, f);
    var before, block, after := FlatMap(s[..j], f), f(s[j]), FlatMap(s[j + 1..], f);
    assert multiset(before + block + after) == multiset(before) + multiset(block) + multiset(after);
    assert multiset(before + after) == multiset(before) + multiset(after);
  }

  /** Concatenating the blocks of a permutation gives a permutation of the concatenation. */
  lemma {:induction false} FlatMapPermutation<T, U>(a: seq<T>, b: seq<T>, f: T -> seq<U>)
    requires multiset(a) == multiset(b)
    ensures multiset(FlatMap(a, f)) == multiset(FlatMap(b, f))
    decreases |a|
  {
    if a == [] {
      assert |b| == |multiset(b)| == 0;
    } else {
      var x := a[|a| - 1];
      var a' := a[..|a| - 1];
      assert a == a' + [x];
      assert multiset(a') == multiset(a) - multiset{x};
      assert x in multiset(b);
      var j :| 0 <= j < |b| && b[j] == x;
      FlatMapRemoveAt(b, j, f);
      FlatMapPermutation(a', b[..j] + b[j + 1..], f);
      FlatMapSnoc(a', x, f);
    }
  }
}
