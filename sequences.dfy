/** Generic sequence helpers: concatenating groups, concatenating the
    outputs of a function over the items, and finding the first item that
    satisfies a test. */
module Sequences {
  import opened Wrappers

  /** Concatenation of groups, in order. */
  function Flatten<T>(ss: seq<seq<T>>): seq<T> {
    if ss == [] then [] else ss[0] + Flatten(ss[1..])
  }

  lemma {:induction false} FlattenAppend<T>(a: seq<seq<T>>, b: seq<seq<T>>)
    ensures Flatten(a + b) == Flatten(a) + Flatten(b)
  {
    if a == [] {
      assert a + b == b;
    } else {
      assert (a + b)[0] == a[0];
      assert (a + b)[1..] == a[1..] + b;
      FlattenAppend(a[1..], b);
    }
  }

  lemma FlattenSnoc<T>(a: seq<seq<T>>, x: seq<T>)
    ensures Flatten(a + [x]) == Flatten(a) + x
  {
    FlattenAppend(a, [x]);
    assert Flatten([x]) == x + Flatten<T>([]);
  }

  lemma FlattenCons2<T>(x: seq<T>, y: seq<T>, rest: seq<seq<T>>)
    ensures Flatten([x, y] + rest) == x + y + Flatten(rest)
  {
    var s := [x, y] + rest;
    assert s[0] == x && s[1..] == [y] + rest;
    assert ([y] + rest)[0] == y && ([y] + rest)[1..] == rest;
  }

  /** The outputs of f over the items, concatenated in item order. */
  function FlatMap<T, U>(f: T -> seq<U>, xs: seq<T>): seq<U> {
    if xs == [] then [] else FlatMap(f, xs[..|xs| - 1]) + f(xs[|xs| - 1])
  }

  lemma FlatMapSnoc<T, U>(f: T -> seq<U>, xs: seq<T>, i: nat)
    requires i < |xs|
    ensures FlatMap(f, xs[..i + 1]) == FlatMap(f, xs[..i]) + f(xs[i])
  {
    assert xs[..i + 1][..i] == xs[..i];
  }

  lemma {:induction false} FlatMapAppend<T, U>(f: T -> seq<U>, a: seq<T>, b: seq<T>)
    ensures FlatMap(f, a + b) == FlatMap(f, a) + FlatMap(f, b)
    decreases |b|
  {
    if b == [] {
      assert a + b == a;
    } else {
      var n := |b| - 1;
      assert (a + b)[..|a + b| - 1] == a + b[..n];
      FlatMapAppend(f, a, b[..n]);
    }
  }

  /** The position of the first item satisfying p, if any. */
  function FirstWhere<T>(p: T -> bool, xs: seq<T>): (r: Option<nat>)
    ensures r.None? ==> forall i | 0 <= i < |xs| :: !p(xs[i])
    ensures r.Some? ==> r.value < |xs| && p(xs[r.value])
    ensures r.Some? ==> forall i | 0 <= i < r.value :: !p(xs[i])
  {
    if xs == [] then None
    else if p(xs[0]) then Some(0)
    else match FirstWhere(p, xs[1..]) {
      case None => None
      case Some(k) => Some(k + 1)
    }
  }

  /** Adding an item at the end changes the first match only when there
      was none. */
  lemma FirstWhereSnoc<T>(p: T -> bool, xs: seq<T>, x: T)
    ensures FirstWhere(p, xs + [x]) == match FirstWhere(p, xs) {
      case None => if p(x) then Some(|xs|) else None
      case Some(h) => Some(h)
    }
  {
    var ys := xs + [x];
    var r := FirstWhere(p, ys);
    assert forall i | 0 <= i < |xs| :: ys[i] == xs[i];
    match FirstWhere(p, xs) {
      case None =>
        if p(x) {
          assert ys[|xs|] == x;
        }
      case Some(h) =>
    }
  }

  lemma SnocSplit<T>(xs: seq<T>)
    requires xs != []
    ensures xs == xs[..|xs| - 1] + [xs[|xs| - 1]]
  {
  }

  /** The outputs over the items after position h grow by the output for
      an item added at the end. */
  lemma FlatMapTail<T, U>(f: T -> seq<U>, init: seq<T>, x: T, h: nat)
    requires h < |init|
    ensures FlatMap(f, (init + [x])[h + 1..]) == FlatMap(f, init[h + 1..]) + f(x)
  {
    var t := init[h + 1..];
    assert (init + [x])[h + 1..] == t + [x];
    assert (t + [x])[..|t|] == t;
  }

  /** `[f(x) for x in xs]`. */
  function Map<T, U>(f: T -> U, xs: seq<T>): (r: seq<U>)
    ensures |r| == |xs|
    ensures forall i | 0 <= i < |xs| :: r[i] == f(xs[i])
  {
    seq(|xs|, i requires 0 <= i < |xs| => f(xs[i]))
  }

  /** Mapping one more item appends its image. */
  lemma MapSnoc<T, U>(f: T -> U, xs: seq<T>, i: nat)
    requires i < |xs|
    ensures Map(f, xs[..i + 1]) == Map(f, xs[..i]) + [f(xs[i])]
  {
    var a, b := Map(f, xs[..i + 1]), Map(f, xs[..i]) + [f(xs[i])];
    forall j | 0 <= j <= i ensures a[j] == b[j] {
      assert xs[..i + 1][j] == xs[j];
    }
  }
}
