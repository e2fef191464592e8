/** What several modules share. */
module Wrappers {

  datatype Option<+T> = None | Some(value: T)

  lemma HasMember(s: set<int>)
    ensures s != {} ==> exists x :: x in s
  {
    if forall x :: x !in s {
      assert s == {};
    }
  }

  /** The elements that are kept, in order. */
  function Filter<T>(keep: T -> bool, xs: seq<T>): seq<T> {
    if xs == [] then []
    else Filter(keep, xs[..|xs| - 1]) + if keep(xs[|xs| - 1]) then [xs[|xs| - 1]] else []
  }

  lemma FilterAppend<T>(keep: T -> bool, xs: seq<T>, x: T)
    ensures Filter(keep, xs + [x]) == if keep(x) then Filter(keep, xs) + [x] else Filter(keep, xs)
  {
    assert (xs + [x])[..|xs|] == xs && Filter(keep, xs) + [] == Filter(keep, xs);
  }

  /** One list holds exactly the elements of the other that pass the test, as often. */
  ghost predicate IsKept<T(!new)>(was: seq<T>, now: seq<T>, keep: T -> bool) {
    forall x :: multiset(now)[x] == if keep(x) then multiset(was)[x] else 0
  }

  lemma {:induction false} FilterKeeps<T(!new)>(keep: T -> bool, xs: seq<T>)
    ensures IsKept(xs, Filter(keep, xs), keep)
  {
    if xs != [] {
      var n := |xs| - 1;
      FilterKeeps(keep, xs[..n]);
      assert xs == xs[..n] + [xs[n]];
    }
  }

  /** Filtering by the weaker test first makes no difference. */
  lemma {:induction false} FilterTwice<T>(weak: T -> bool, strong: T -> bool, xs: seq<T>)
    requires forall x :: strong(x) ==> weak(x)
    ensures Filter(strong, Filter(weak, xs)) == Filter(strong, xs)
  {
    if xs != [] {
      var n := |xs| - 1;
      FilterTwice(weak, strong, xs[..n]);
      FilterAppend(strong, Filter(weak, xs[..n]), xs[n]);
      assert xs == xs[..n] + [xs[n]];
      FilterAppend(weak, xs[..n], xs[n]);
      FilterAppend(strong, xs[..n], xs[n]);
    }
  }
}
