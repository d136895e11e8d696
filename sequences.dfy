/** Sequence helpers: the insertion-ordered de-duplication that JavaScript's `Set`
    and `Map` keys perform, and the sum of a sequence of counts. */
module Sequences {

  /** The elements of `xs` in first-insertion order, each once: `Array.from(new Set(xs))`.
      Defined element by element from the left, as a `Set` is filled. */
  function Distinct<T(==)>(xs: seq<T>): seq<T>
  {
    if |xs| == 0 then []
    else
      var d := Distinct(xs[..|xs| - 1]);
      if xs[|xs| - 1] in d then d else d + [xs[|xs| - 1]]
  }

  predicate NoDuplicates<T(==)>(xs: seq<T>) {
    forall i, j :: 0 <= i < j < |xs| ==> xs[i] != xs[j]
  }

  /** The de-duplicated sequence holds exactly the elements of the input, each once. */
  lemma {:induction false} DistinctSpec<T>(xs: seq<T>)
    ensures forall x :: x in Distinct(xs) <==> x in xs
    ensures NoDuplicates(Distinct(xs))
    decreases |xs|
  {
    if |xs| > 0 {
      var p := xs[..|xs| - 1];
      DistinctSpec(p);
      assert xs == p + [xs[|xs| - 1]];
    }
  }

  /** Appending more elements never moves or drops an element already collected:
      later duplicates do not change the position of the first. */
  lemma {:induction false} DistinctPrefix<T>(xs: seq<T>, ys: seq<T>)
    ensures Distinct(xs) <= Distinct(xs + ys)
    decreases |ys|
  {
    if |ys| == 0 {
      assert xs + ys == xs;
    } else {
      var ys' := ys[..|ys| - 1];
      DistinctPrefix(xs, ys');
      assert (xs + ys)[..|xs + ys| - 1] == xs + ys';
    }
  }
}
