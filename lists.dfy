/**
 * The list edits the emitter performs on its initializer and behaviour
 * arrays. The model reads "removes an element" as: its first occurrence
 * goes, the others keep their order, and an absent element changes
 * nothing. Elements are compared by identity, which is Dafny's equality on
 * class references.
 */
module Lists {

  /** No element occurs twice. */
  predicate Distinct<T(==)>(xs: seq<T>) {
    forall i, j :: 0 <= i < j < |xs| ==> xs[i] != xs[j]
  }

  /** The first index of `x` in a list that holds it. */
  function IndexOf<T(==)>(xs: seq<T>, x: T): (i: nat)
    requires x in xs
    ensures i < |xs| && xs[i] == x && x !in xs[..i]
  {
    if xs[0] == x then 0 else 1 + IndexOf(xs[1..], x)
  }

  /** `xs` with its first occurrence of `x` cut out; `xs` itself when `x` is absent. */
  function RemoveFirst<T(==)>(xs: seq<T>, x: T): (r: seq<T>)
    ensures x !in xs ==> r == xs
    ensures x in xs ==> |r| == |xs| - 1
    ensures multiset(r) == multiset(xs) - multiset{x}
  {
    if x in xs then
      var i := IndexOf(xs, x);
      assert xs == xs[..i] + [x] + xs[i + 1..];
      xs[..i] + xs[i + 1..]
    else
      xs
  }

  /** Splicing index `i` out of a list without repeats leaves a list without repeats that lacks `xs[i]`. */
  lemma SpliceDistinct<T>(xs: seq<T>, i: nat)
    requires Distinct(xs) && i < |xs|
    ensures Distinct(xs[..i] + xs[i + 1..]) && xs[i] !in xs[..i] + xs[i + 1..]
  {
    var r := xs[..i] + xs[i + 1..];
    forall k | 0 <= k < |r|
      ensures r[k] == xs[if k < i then k else k + 1]
    {
    }
  }

  /** Removing from a list without repeats leaves a list without repeats, and `x` gone. */
  lemma RemoveFirstDistinct<T>(xs: seq<T>, x: T)
    requires Distinct(xs)
    ensures Distinct(RemoveFirst(xs, x)) && x !in RemoveFirst(xs, x)
  {
    if x in xs {
      SpliceDistinct(xs, IndexOf(xs, x));
    }
  }

  /** Removing an element just appended to a list that did not hold it gives the list back. */
  lemma RemoveUndoesAppend<T>(xs: seq<T>, x: T)
    requires x !in xs
    ensures RemoveFirst(xs + [x], x) == xs
  {
    assert (xs + [x])[..|xs|] == xs;
  }
}
