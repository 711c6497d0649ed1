/** Sum types and sequence operations shared by every other module. */
module Prelude {

  datatype Option<+T> = None | Some(value: T)

  datatype Result<+T, +E> = Ok(value: T) | Err(error: E)

  /** Python's `x or d` on an optional string: both None and the empty string are falsy. */
  function OrElse(x: Option<string>, d: string): string {
    if x == None || x.value == "" then d else x.value
  }

  function Map<T, U>(f: T -> U, xs: seq<T>): (ys: seq<U>)
    ensures |ys| == |xs|
    ensures forall i :: 0 <= i < |xs| ==> ys[i] == f(xs[i])
  {
    seq(|xs|, i requires 0 <= i < |xs| => f(xs[i]))
  }

  lemma MapAppend<T, U>(f: T -> U, xs: seq<T>, x: T)
    ensures Map(f, xs + [x]) == Map(f, xs) + [f(x)]
  {
  }

  /** The rows that satisfy p, in order: a SQL `where` clause. */
  function Filter<T>(p: T -> bool, xs: seq<T>): (ys: seq<T>)
    ensures |ys| <= |xs|
    ensures forall i :: 0 <= i < |ys| ==> ys[i] in xs && p(ys[i])
  {
    if xs == [] then []
    else if p(xs[0]) then [xs[0]] + Filter(p, xs[1..])
    else Filter(p, xs[1..])
  }

  /** Nothing that satisfies p is left out. */
  lemma {:induction false} FilterKeeps<T>(p: T -> bool, xs: seq<T>, i: nat)
    requires i < |xs| && p(xs[i])
    ensures xs[i] in Filter(p, xs)
  {
    if i > 0 {
      FilterKeeps(p, xs[1..], i - 1);
    }
  }

  lemma {:induction false} FilterConcat<T>(p: T -> bool, xs: seq<T>, ys: seq<T>)
    ensures Filter(p, xs + ys) == Filter(p, xs) + Filter(p, ys)
  {
    if xs == [] {
      assert xs + ys == ys;
    } else {
      assert (xs + ys)[1..] == xs[1..] + ys;
      FilterConcat(p, xs[1..], ys);
    }
  }

  lemma {:induction false} FilterAppend<T>(p: T -> bool, xs: seq<T>, y: T)
    ensures Filter(p, xs + [y]) == if p(y) then Filter(p, xs) + [y] else Filter(p, xs)
  {
    FilterConcat(p, xs, [y]);
  }

  /** Replacing a row by one that p treats alike keeps the number of rows p selects; otherwise it moves by one. */
  lemma {:induction false} FilterUpdate<T>(p: T -> bool, xs: seq<T>, i: nat, y: T)
    requires i < |xs|
    ensures |Filter(p, xs[i := y])| + (if p(xs[i]) then 1 else 0) == |Filter(p, xs)| + (if p(y) then 1 else 0)
  {
    assert xs == xs[..i] + ([xs[i]] + xs[i + 1..]);
    assert xs[i := y] == xs[..i] + ([y] + xs[i + 1..]);
    FilterConcat(p, xs[..i], [xs[i]] + xs[i + 1..]);
    FilterConcat(p, [xs[i]], xs[i + 1..]);
    FilterConcat(p, xs[..i], [y] + xs[i + 1..]);
    FilterConcat(p, [y], xs[i + 1..]);
  }

  /** Selecting commutes with a projection that the two selections agree on. */
  lemma {:induction false} FilterMap<T, U>(p: T -> bool, q: U -> bool, f: T -> U, xs: seq<T>)
    requires forall x :: x in xs ==> q(f(x)) == p(x)
    ensures Filter(q, Map(f, xs)) == Map(f, Filter(p, xs))
  {
    if xs != [] {
      var x, rest := xs[0], xs[1..];
      assert Map(f, xs)[0] == f(x) && Map(f, xs)[1..] == Map(f, rest);
      FilterMap(p, q, f, rest);
      var kept := Filter(p, rest);
      if p(x) {
        assert Filter(p, xs) == [x] + kept;
        assert Map(f, [x] + kept) == [f(x)] + Map(f, kept);
      }
    }
  }

  lemma {:induction false} FilterNone<T>(p: T -> bool, xs: seq<T>)
    requires forall x :: x in xs ==> !p(x)
    ensures Filter(p, xs) == []
  {
    if xs != [] {
      FilterNone(p, xs[1..]);
    }
  }

  lemma {:induction false} FilterAll<T>(p: T -> bool, xs: seq<T>)
    requires forall x :: x in xs ==> p(x)
    ensures Filter(p, xs) == xs
  {
    if xs != [] {
      FilterAll(p, xs[1..]);
    }
  }

  /** Successive selections are one selection by the conjunction. */
  lemma {:induction false} FilterFilter<T>(p: T -> bool, q: T -> bool, xs: seq<T>)
    requires forall x :: x in xs && q(x) ==> p(x)
    ensures Filter(q, Filter(p, xs)) == Filter(q, xs)
  {
    if xs != [] {
      FilterFilter(p, q, xs[1..]);
      if p(xs[0]) {
        assert ([xs[0]] + Filter(p, xs[1..]))[1..] == Filter(p, xs[1..]);
      }
    }
  }

  ghost predicate Pairwise<T>(rel: (T, T) -> bool, xs: seq<T>) {
    forall i, j {:trigger xs[i], xs[j]} :: 0 <= i < j < |xs| ==> rel(xs[i], xs[j])
  }

  lemma PairwiseAt<T>(rel: (T, T) -> bool, xs: seq<T>, i: nat, j: nat)
    requires Pairwise(rel, xs) && i < j < |xs|
    ensures rel(xs[i], xs[j])
  {
  }

  lemma PairwiseAppend<T>(rel: (T, T) -> bool, xs: seq<T>, x: T)
    requires Pairwise(rel, xs) && forall i :: 0 <= i < |xs| ==> rel(xs[i], x)
    ensures Pairwise(rel, xs + [x])
  {
  }

  /** What holds of every pair in order holds of every pair of selected rows. */
  lemma {:induction false} FilterPairwise<T>(p: T -> bool, rel: (T, T) -> bool, xs: seq<T>)
    requires Pairwise(rel, xs)
    ensures Pairwise(rel, Filter(p, xs))
  {
    if xs != [] {
      var tail := xs[1..];
      assert forall i :: 0 <= i < |tail| ==> tail[i] == xs[i + 1];
      FilterPairwise(p, rel, tail);
      var g := Filter(p, tail);
      forall j | 0 <= j < |g| ensures rel(xs[0], g[j]) {
        var k :| 0 <= k < |tail| && tail[k] == g[j];
      }
      var f := [xs[0]] + g;
      forall i, j | 0 <= i < j < |f| ensures rel(f[i], f[j]) {
        assert f[j] == g[j - 1];
        assert i > 0 ==> f[i] == g[i - 1];
      }
    }
  }

  /** Concatenates the lists f gives for each element: what a loop that appends findings builds. */
  function FlatMap<T, U>(f: T -> seq<U>, xs: seq<T>): seq<U> {
    if xs == [] then [] else FlatMap(f, xs[..|xs| - 1]) + f(xs[|xs| - 1])
  }

  lemma FlatMapNil<T, U>(f: T -> seq<U>)
    ensures FlatMap(f, []) == []
  {
  }

  lemma {:induction false} FlatMapEmpty<T, U>(f: T -> seq<U>, xs: seq<T>)
    ensures FlatMap(f, xs) == [] <==> forall x :: x in xs ==> f(x) == []
  {
    if xs != [] {
      var front, last := xs[..|xs| - 1], xs[|xs| - 1];
      assert xs == front + [last];
      FlatMapEmpty(f, front);
    }
  }

  lemma {:induction false} FlatMapHas<T, U>(f: T -> seq<U>, xs: seq<T>, y: U)
    ensures y in FlatMap(f, xs) <==> exists i :: 0 <= i < |xs| && y in f(xs[i])
  {
    if xs != [] {
      var front, last := xs[..|xs| - 1], xs[|xs| - 1];
      FlatMapHas(f, front, y);
      assert forall i :: 0 <= i < |front| ==> front[i] == xs[i];
      assert y in FlatMap(f, xs) <==> y in FlatMap(f, front) || y in f(last);
    }
  }

  lemma FlatMapAppend<T, U>(f: T -> seq<U>, xs: seq<T>, x: T)
    ensures FlatMap(f, xs + [x]) == FlatMap(f, xs) + f(x)
  {
    assert (xs + [x])[..|xs|] == xs;
  }

  /** The index of the first row satisfying p. */
  function FindIndex<T>(p: T -> bool, xs: seq<T>): (r: Option<nat>)
    ensures r.Some? ==> r.value < |xs| && p(xs[r.value]) && forall i :: 0 <= i < r.value ==> !p(xs[i])
    ensures r.None? ==> forall i :: 0 <= i < |xs| ==> !p(xs[i])
  {
    if xs == [] then None
    else if p(xs[0]) then Some(0)
    else
      match FindIndex(p, xs[1..])
      case None => None
      case Some(i) => Some(i + 1)
  }

  /** `xs` without repetitions, each element at its first occurrence: the key order of a Python dict built from xs. */
  function Distinct(xs: seq<string>): (ys: seq<string>)
    ensures forall y :: y in ys <==> y in xs
    ensures forall i, j :: 0 <= i < j < |ys| ==> ys[i] != ys[j]
  {
    if xs == [] then []
    else
      var front := Distinct(xs[..|xs| - 1]);
      var last := xs[|xs| - 1];
      assert xs == xs[..|xs| - 1] + [last];
      if last in front then front else front + [last]
  }
}
