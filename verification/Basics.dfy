/** Datatypes and sequence helpers shared by every component of the model. */
module Basics {

  /** A value that may be absent. */
  datatype Option<+T> = None | Some(value: T) {
    function GetOr(default: T): T {
      if Some? then value else default
    }
  }

  /** The outcome of an operation that may fail. */
  datatype Result<+T, +E> = Ok(value: T) | Err(error: E)

  type byte = x: int | 0 <= x < 256

  function Min(a: nat, b: nat): nat {
    if a <= b then a else b
  }

  function Max(a: nat, b: nat): nat {
    if a <= b then b else a
  }

  function Map<A, B>(f: A -> B, xs: seq<A>): (ys: seq<B>)
    ensures |ys| == |xs| && forall i :: 0 <= i < |xs| ==> ys[i] == f(xs[i])
  {
    seq(|xs|, i requires 0 <= i < |xs| => f(xs[i]))
  }

  /** The concatenation of `f` over a sequence. */
  ghost function FlatMap<A, B>(f: A -> seq<B>, xs: seq<A>): seq<B> {
    if xs == [] then [] else FlatMap(f, xs[..|xs| - 1]) + f(xs[|xs| - 1])
  }

  lemma FlatMapAppend<A, B>(f: A -> seq<B>, xs: seq<A>, x: A)
    ensures FlatMap(f, xs + [x]) == FlatMap(f, xs) + f(x)
  {
    assert (xs + [x])[..|xs + [x]| - 1] == xs;
  }

  lemma SplitLast<T>(xs: seq<T>)
    requires xs != []
    ensures xs == xs[..|xs| - 1] + [xs[|xs| - 1]]
  {
  }

  lemma Associative<T>(a: seq<T>, b: seq<T>, c: seq<T>)
    ensures (a + b) + c == a + (b + c)
  {
  }

  lemma {:induction false} FlatMapConcat<A, B>(f: A -> seq<B>, xs: seq<A>, ys: seq<A>)
    ensures FlatMap(f, xs + ys) == FlatMap(f, xs) + FlatMap(f, ys)
  {
    if ys == [] {
      assert xs + ys == xs && FlatMap(f, xs) + [] == FlatMap(f, xs);
    } else {
      var init, last := ys[..|ys| - 1], ys[|ys| - 1];
      FlatMapConcat(f, xs, init);
      assert ys == init + [last];
      Associative(xs, init, [last]);
      FlatMapAppend(f, xs + init, last);
      Associative(FlatMap(f, xs), FlatMap(f, init), f(last));
    }
  }

  /** How many of the first `k` are marked. */
  ghost function Marked(marks: seq<bool>, k: nat): nat
    requires k <= |marks|
  {
    if k == 0 then 0 else Marked(marks, k - 1) + if marks[k - 1] then 1 else 0
  }

  /** What starts at zero and goes up by one at every mark counts the marks. */
  lemma {:induction false} GoesUpAtMarks(values: seq<nat>, marks: seq<bool>, k: nat)
    requires |values| == |marks| + 1 && k <= |marks| && values[0] == 0
    requires forall i :: 0 <= i < |marks| ==> values[i + 1] == values[i] + if marks[i] then 1 else 0
    ensures values[k] == Marked(marks, k)
  {
    if k > 0 {
      GoesUpAtMarks(values, marks, k - 1);
      assert values[(k - 1) + 1] == values[k - 1] + if marks[k - 1] then 1 else 0;
    }
  }

  lemma {:induction false} MarkedOnlyGrows(marks: seq<bool>, i: nat, j: nat)
    requires i <= j <= |marks|
    ensures Marked(marks, i) <= Marked(marks, j)
    decreases j
  {
    if i < j {
      MarkedOnlyGrows(marks, i, j - 1);
    }
  }
}
