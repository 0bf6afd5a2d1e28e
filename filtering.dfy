/** Python's filtering comprehension `[x for x in xs if keep(x)]`, used by
    the pipeline for the ready candidates, the download candidates and the
    file globs. */
module Filtering {

  function Filter<T>(xs: seq<T>, keep: T -> bool): (r: seq<T>)
    ensures |r| <= |xs|
  {
    if xs == [] then [] else Filter(xs[..|xs| - 1], keep) + (if keep(xs[|xs| - 1]) then [xs[|xs| - 1]] else [])
  }

  /** Filtering a concatenation filters each part: the kept elements stay
      in their order. */
  lemma {:induction false} FilterAppend<T>(a: seq<T>, b: seq<T>, keep: T -> bool)
    ensures Filter(a + b, keep) == Filter(a, keep) + Filter(b, keep)
    decreases |b|
  {
    if b == [] {
      assert a + b == a;
    } else {
      var init, x := b[..|b| - 1], b[|b| - 1];
      var tail := if keep(x) then [x] else [];
      FilterAppend(a, init, keep);
      assert (a + b)[..|a + b| - 1] == a + init;
      assert Filter(a + b, keep) == Filter(a + init, keep) + tail;
      assert Filter(b, keep) == Filter(init, keep) + tail;
    }
  }

  /** An element is kept exactly when it occurs and passes the test. */
  lemma {:induction false} FilterMembers<T>(xs: seq<T>, keep: T -> bool, x: T)
    ensures x in Filter(xs, keep) <==> x in xs && keep(x)
  {
    if xs != [] {
      var init := xs[..|xs| - 1];
      FilterMembers(init, keep, x);
      assert xs == init + [xs[|xs| - 1]];
    }
  }

  /** Every kept element passes the test. */
  lemma {:induction false} FilterKeeps<T>(xs: seq<T>, keep: T -> bool, i: nat)
    requires i < |Filter(xs, keep)|
    ensures keep(Filter(xs, keep)[i]) && Filter(xs, keep)[i] in xs
  {
    FilterMembers(xs, keep, Filter(xs, keep)[i]);
  }

  /** Nothing is kept exactly when no element passes. */
  lemma {:induction false} FilterEmptyIff<T>(xs: seq<T>, keep: T -> bool)
    ensures Filter(xs, keep) == [] <==> forall i :: 0 <= i < |xs| ==> !keep(xs[i])
  {
    if xs != [] {
      FilterEmptyIff(xs[..|xs| - 1], keep);
      assert forall i :: 0 <= i < |xs| - 1 ==> xs[..|xs| - 1][i] == xs[i];
    }
  }
}
