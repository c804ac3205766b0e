/** ORDER BY: insertion into a sequence that a strict order keeps sorted. */
module Ordering {

  function Place<R>(x: R, xs: seq<R>, before: (R, R) -> bool): seq<R> {
    if xs == [] || before(x, xs[0]) then [x] + xs else [xs[0]] + Place(x, xs[1..], before)
  }

  function Sort<R>(xs: seq<R>, before: (R, R) -> bool): seq<R> {
    if xs == [] then [] else Place(xs[0], Sort(xs[1..], before), before)
  }

  ghost predicate Ordered<R>(xs: seq<R>, before: (R, R) -> bool) {
    forall i, j :: 0 <= i < j < |xs| ==> before(xs[i], xs[j])
  }

  ghost predicate Transitive<R(!new)>(before: (R, R) -> bool) {
    forall a, b, c :: Chains(before, a, b, c)
  }

  predicate Chains<R>(before: (R, R) -> bool, a: R, b: R, c: R) {
    before(a, b) && before(b, c) ==> before(a, c)
  }

  /** Any two places hold rows that the order can tell apart. */
  ghost predicate Comparable<R>(xs: seq<R>, before: (R, R) -> bool) {
    forall i, j :: 0 <= i < j < |xs| ==> before(xs[i], xs[j]) || before(xs[j], xs[i])
  }

  lemma {:induction false} InsertIsPermutation<R>(x: R, xs: seq<R>, before: (R, R) -> bool)
    ensures multiset(Place(x, xs, before)) == multiset{x} + multiset(xs)
  {
    if xs != [] && !before(x, xs[0]) {
      InsertIsPermutation(x, xs[1..], before);
      assert xs == [xs[0]] + xs[1..];
    }
  }

  lemma {:induction false} SortIsPermutation<R>(xs: seq<R>, before: (R, R) -> bool)
    ensures multiset(Sort(xs, before)) == multiset(xs)
  {
    if xs != [] {
      SortIsPermutation(xs[1..], before);
      InsertIsPermutation(xs[0], Sort(xs[1..], before), before);
      assert xs == [xs[0]] + xs[1..];
    }
  }

  lemma {:induction false} InsertIsSorted<R(!new)>(x: R, xs: seq<R>, before: (R, R) -> bool)
    requires Transitive(before) && Ordered(xs, before)
    requires forall r :: r in xs ==> before(x, r) || before(r, x)
    ensures Ordered(Place(x, xs, before), before)
  {
    if xs == [] {
    } else if before(x, xs[0]) {
      forall j | 1 <= j < |xs| ensures before(x, xs[j]) {
        assert Chains(before, x, xs[0], xs[j]);
      }
    } else {
      var rest := Place(x, xs[1..], before);
      InsertIsSorted(x, xs[1..], before);
      InsertIsPermutation(x, xs[1..], before);
      forall j | 0 <= j < |rest| ensures before(xs[0], rest[j]) {
        assert rest[j] in multiset(rest);
        assert rest[j] == x || rest[j] in xs[1..];
      }
    }
  }

  /** Distinguishable rows come out in strict order. */
  lemma {:induction false} SortIsSorted<R(!new)>(xs: seq<R>, before: (R, R) -> bool)
    requires Transitive(before) && Comparable(xs, before)
    ensures Ordered(Sort(xs, before), before)
  {
    if xs != [] {
      SortIsSorted(xs[1..], before);
      SortIsPermutation(xs[1..], before);
      forall r | r in Sort(xs[1..], before) ensures before(xs[0], r) || before(r, xs[0]) {
        assert r in multiset(xs[1..]);
        var j :| 0 <= j < |xs[1..]| && xs[1..][j] == r;
        assert xs[j + 1] == r;
      }
      InsertIsSorted(xs[0], Sort(xs[1..], before), before);
    }
  }
}
