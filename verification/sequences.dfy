/** Sequence operations the pipeline relies on: Python's `list.remove`,
    and the repetition patterns that describe fan-out. */
module Sequences {

  /** Index of the first occurrence of `x`, the element `list.remove(x)` deletes. */
  function FirstIndex<T(==)>(xs: seq<T>, x: T): (i: nat)
    requires x in xs
    ensures i < |xs| && xs[i] == x
    ensures x !in xs[..i]
  {
    if xs[0] == x then 0
    else
      var j := FirstIndex(xs[1..], x);
      assert xs[..j + 1] == [xs[0]] + xs[1..][..j];
      j + 1
  }

  /** `xs` after `list.remove(x)`: the first occurrence of `x` is gone. */
  function RemoveFirst<T(==)>(xs: seq<T>, x: T): (r: seq<T>)
    requires x in xs
    ensures |r| == |xs| - 1
    ensures multiset(r) == multiset(xs) - multiset{x}
  {
    var i := FirstIndex(xs, x);
    assert xs == xs[..i] + [x] + xs[i + 1..];
    xs[..i] + xs[i + 1..]
  }

  /** `xs` with every occurrence of `x` taken out: the order of everything else. */
  function Erase<T(==)>(xs: seq<T>, x: T): seq<T>
  {
    if xs == [] then []
    else if xs[0] == x then Erase(xs[1..], x)
    else [xs[0]] + Erase(xs[1..], x)
  }

  lemma {:induction false} EraseAppend<T>(a: seq<T>, b: seq<T>, x: T)
    ensures Erase(a + b, x) == Erase(a, x) + Erase(b, x)
  {
    if a != [] {
      assert (a + b)[0] == a[0];
      assert (a + b)[1..] == a[1..] + b;
      EraseAppend(a[1..], b, x);
    } else {
      assert a + b == b;
    }
  }

  /** `list.remove` keeps the relative order of every element other than `x`,
      and touches nothing before the first `x`. */
  lemma RemoveFirstKeepsOthers<T>(xs: seq<T>, x: T)
    requires x in xs
    ensures Erase(RemoveFirst(xs, x), x) == Erase(xs, x)
    ensures var i := FirstIndex(xs, x);
      RemoveFirst(xs, x)[..i] == xs[..i] && RemoveFirst(xs, x)[i..] == xs[i + 1..]
  {
    var i := FirstIndex(xs, x);
    var a, b := xs[..i], xs[i + 1..];
    assert xs == a + ([x] + b);
    EraseAppend(a, [x] + b, x);
    assert Erase([x] + b, x) == Erase(b, x) by {
      assert ([x] + b)[1..] == b;
    }
    EraseAppend(a, b, x);
  }

  /** `xs` is what remains of `ys` once some elements are taken off its front. */
  predicate SuffixOf<T(==)>(xs: seq<T>, ys: seq<T>)
  {
    |xs| <= |ys| && xs == ys[|ys| - |xs|..]
  }

  /** `k` copies of `x`. */
  function Repeat<T>(x: T, k: nat): (r: seq<T>)
    ensures |r| == k
  {
    if k == 0 then [] else [x] + Repeat(x, k - 1)
  }

  /** Each element of `xs` repeated `k` times in place, in the order of `xs`. */
  function Stutter<T>(xs: seq<T>, k: nat): seq<T>
  {
    if xs == [] then [] else Repeat(xs[0], k) + Stutter(xs[1..], k)
  }

  lemma {:induction false} StutterOnceOrNever<T>(xs: seq<T>)
    ensures Stutter(xs, 1) == xs
    ensures Stutter(xs, 0) == []
  {
    if xs != [] {
      StutterOnceOrNever(xs[1..]);
      assert xs == [xs[0]] + xs[1..];
    }
  }
}
