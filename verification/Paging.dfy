/**
 Keyset paging in general: a sorted result set, a cursor predicate, LIMIT n + 1, and a
 client that follows cursors to the end.
 */
module Paging {
  import opened Wrappers

  /** The rows a request with a given cursor could still return, in order. */
  type Source<!R, !C> = Option<C> -> seq<R>

  function Take<R>(xs: seq<R>, n: nat): seq<R> {
    if n <= |xs| then xs[..n] else xs
  }

  datatype Page<R, C> = Page(rows: seq<R>, next: Option<C>)

  /** One response: fetch one row more than the limit; if it came, name the last row kept. */
  function Respond<R, C>(db: Source<R, C>, key: R -> C, cursor: Option<C>, limit: nat): Page<R, C> {
    var got := Take(db(cursor), limit + 1);
    var rows := Take(got, limit);
    Page(rows, if |got| > limit && rows != [] then Some(key(rows[|rows| - 1])) else None)
  }

  predicate ShrinksAt<R, C>(db: Source<R, C>, key: R -> C, cursor: Option<C>, i: nat) {
    i < |db(cursor)| ==> |db(Some(key(db(cursor)[i])))| < |db(cursor)|
  }

  /** After any row that a request could return, fewer rows are left. */
  ghost predicate Shrinks<R, C(!new)>(db: Source<R, C>, key: R -> C) {
    forall cursor, i :: ShrinksAt(db, key, cursor, i)
  }

  ghost predicate Positive(limits: nat -> nat) {
    forall n :: limits(n) >= 1
  }

  /** Everything a client is given that follows `next` to the end, page by page, with any
      positive limits; `WalkFollowsResponses` ties it to the responses. */
  ghost function Walk<R, C(!new)>(db: Source<R, C>, key: R -> C, cursor: Option<C>, limits: nat -> nat, k: nat): seq<R>
    requires Shrinks(db, key) && Positive(limits)
    decreases |db(cursor)|
  {
    var rest, n := db(cursor), limits(k);
    if |rest| <= n then rest
    else
      assert ShrinksAt(db, key, cursor, n - 1);
      rest[..n] + Walk(db, key, Some(key(rest[n - 1])), limits, k + 1)
  }

  /** A walk is its first response followed by the walk from the cursor it names. */
  lemma WalkFollowsResponses<R, C(!new)>(db: Source<R, C>, key: R -> C, cursor: Option<C>, limits: nat -> nat, k: nat)
    requires Shrinks(db, key) && Positive(limits)
    ensures var page := Respond(db, key, cursor, limits(k));
            Walk(db, key, cursor, limits, k)
            == page.rows + if page.next.None? then [] else Walk(db, key, page.next, limits, k + 1)
  {
    var rest := db(cursor);
    assert rest + [] == rest;
  }

  ghost predicate FollowsAt<R, C>(db: Source<R, C>, key: R -> C, xs: seq<R>, i: nat)
    requires i < |xs|
  {
    db(Some(key(xs[i]))) == xs[i + 1..]
  }

  /** Each row's cursor lets through exactly the rows after it. */
  ghost predicate Follows<R, C>(db: Source<R, C>, key: R -> C, xs: seq<R>) {
    forall i :: 0 <= i < |xs| ==> FollowsAt(db, key, xs, i)
  }

  lemma FollowsTail<R, C>(db: Source<R, C>, key: R -> C, xs: seq<R>, n: nat) returns (tail: seq<R>)
    requires Follows(db, key, xs) && 1 <= n < |xs|
    ensures tail == xs[n..] && Follows(db, key, tail) && xs[..n] + tail == xs
    ensures db(Some(key(xs[n - 1]))) == tail
  {
    tail := xs[n..];
    forall i | 0 <= i < |tail| ensures FollowsAt(db, key, tail, i) {
      assert FollowsAt(db, key, xs, n + i);
    }
    assert FollowsAt(db, key, xs, n - 1);
  }

  lemma {:induction false} WalkRest<R, C(!new)>(db: Source<R, C>, key: R -> C, cursor: Option<C>, rest: seq<R>,
                                                limits: nat -> nat, k: nat)
    requires Shrinks(db, key) && Positive(limits)
    requires Follows(db, key, rest) && db(cursor) == rest
    ensures Walk(db, key, cursor, limits, k) == rest
    decreases |rest|
  {
    if |rest| > limits(k) {
      var tail := FollowsTail(db, key, rest, limits(k));
      WalkRest(db, key, Some(key(rest[limits(k) - 1])), tail, limits, k + 1);
    }
  }

  /** Then every walk is the whole sorted set, in order, each row once. */
  lemma WalkIsWhole<R, C(!new)>(db: Source<R, C>, key: R -> C, limits: nat -> nat)
    requires Shrinks(db, key) && Positive(limits) && Follows(db, key, db(None))
    ensures Walk(db, key, None, limits, 0) == db(None)
  {
    WalkRest(db, key, None, db(None), limits, 0);
  }

  /** Pages of one row. */
  function OneByOne(): nat -> nat {
    k => 1
  }

  lemma WalkStarts<R, C(!new)>(db: Source<R, C>, key: R -> C, cursor: Option<C>, limits: nat -> nat, k: nat)
    requires Shrinks(db, key) && Positive(limits)
    ensures var walked := Walk(db, key, cursor, limits, k);
            (walked == [] <==> db(cursor) == []) && (walked != [] ==> walked[0] == db(cursor)[0])
  {
  }

  /** The row after this one is not the next its cursor lets through. */
  predicate LosesNext<R(==), C>(db: Source<R, C>, key: R -> C, xs: seq<R>, i: nat)
    requires i + 1 < |xs|
  {
    var rest := db(Some(key(xs[i])));
    rest == [] || rest[0] != xs[i + 1]
  }

  /** If the cursors are right up to a row that loses the next one, a walk with pages of one row
      is not the whole set. */
  lemma {:induction false} WalkLosesRow<R, C(!new)>(db: Source<R, C>, key: R -> C, cursor: Option<C>, xs: seq<R>,
                                                    i: nat, k: nat)
    requires Shrinks(db, key) && db(cursor) == xs
    requires i + 1 < |xs| && LosesNext(db, key, xs, i)
    requires forall j :: 0 <= j < i ==> FollowsAt(db, key, xs, j)
    ensures Walk(db, key, cursor, OneByOne(), k) != xs
    decreases i
  {
    var next := Some(key(xs[0]));
    assert ShrinksAt(db, key, cursor, 0);
    var after := Walk(db, key, next, OneByOne(), k + 1);
    assert Walk(db, key, cursor, OneByOne(), k) == xs[..1] + after;
    assert (xs[..1] + after)[1..] == after;
    if i == 0 {
      WalkStarts(db, key, next, OneByOne(), k + 1);
    } else {
      assert FollowsAt(db, key, xs, 0);
      forall j | 0 <= j < i - 1 ensures FollowsAt(db, key, xs[1..], j) {
        assert FollowsAt(db, key, xs, j + 1);
      }
      WalkLosesRow(db, key, next, xs[1..], i - 1, k + 1);
    }
  }

  // ---- Sources given by an order and a cursor predicate ----

  /** A WHERE clause on an ordered result. */
  function Keep<R>(xs: seq<R>, p: R -> bool): seq<R> {
    if xs == [] then []
    else if p(xs[0]) then [xs[0]] + Keep(xs[1..], p)
    else Keep(xs[1..], p)
  }

  function Rows<R, C>(xs: seq<R>, after: (C, R) -> bool, cursor: Option<C>): seq<R> {
    match cursor
    case None => xs
    case Some(c) => Keep(xs, r => after(c, r))
  }

  /** Cursors only ever move forward. */
  ghost predicate Forward<R(!new), C(!new)>(after: (C, R) -> bool, key: R -> C) {
    forall c, r, s :: Onward(after, key, c, r, s)
  }

  predicate Onward<R, C>(after: (C, R) -> bool, key: R -> C, c: C, r: R, s: R) {
    !after(key(r), r) && (after(c, r) && after(key(r), s) ==> after(c, s))
  }

  lemma {:induction false} KeepIn<R>(xs: seq<R>, p: R -> bool, i: nat)
    requires i < |Keep(xs, p)|
    ensures Keep(xs, p)[i] in xs && p(Keep(xs, p)[i])
  {
    if p(xs[0]) {
      if i > 0 {
        KeepIn(xs[1..], p, i - 1);
      }
    } else {
      KeepIn(xs[1..], p, i);
    }
  }

  lemma {:induction false} KeepHolds<R>(xs: seq<R>, p: R -> bool, x: R)
    ensures x in Keep(xs, p) <==> x in xs && p(x)
  {
    if xs != [] {
      KeepHolds(xs[1..], p, x);
      assert x in xs <==> x == xs[0] || x in xs[1..];
    }
  }

  lemma {:induction false} KeepFewer<R>(xs: seq<R>, p: R -> bool, q: R -> bool)
    requires forall r :: r in xs && q(r) ==> p(r)
    ensures |Keep(xs, q)| <= |Keep(xs, p)|
    ensures (exists r :: r in xs && p(r) && !q(r)) ==> |Keep(xs, q)| < |Keep(xs, p)|
  {
    if xs != [] {
      KeepFewer(xs[1..], p, q);
      if exists r :: r in xs && p(r) && !q(r) {
        var r :| r in xs && p(r) && !q(r);
        assert r == xs[0] || r in xs[1..];
      }
    }
  }

  lemma {:induction false} KeepAll<R>(xs: seq<R>, p: R -> bool)
    requires forall i :: 0 <= i < |xs| ==> p(xs[i])
    ensures Keep(xs, p) == xs
  {
    if xs != [] {
      KeepAll(xs[1..], p);
    }
  }

  lemma {:induction false} KeepSuffix<R>(xs: seq<R>, p: R -> bool, n: nat)
    requires n <= |xs|
    requires forall j :: 0 <= j < |xs| ==> (p(xs[j]) <==> j >= n)
    ensures Keep(xs, p) == xs[n..]
  {
    if n == 0 {
      KeepAll(xs, p);
    } else {
      KeepSuffix(xs[1..], p, n - 1);
      assert xs[1..][n - 1..] == xs[n..];
    }
  }

  lemma RowsShrink<R(!new), C(!new)>(xs: seq<R>, after: (C, R) -> bool, key: R -> C, cursor: Option<C>, i: nat)
    requires Forward(after, key) && i < |Rows(xs, after, cursor)|
    ensures |Rows(xs, after, Some(key(Rows(xs, after, cursor)[i])))| < |Rows(xs, after, cursor)|
  {
    var last := Rows(xs, after, cursor)[i];
    match cursor {
      case None =>
        KeepAll(xs, r => true);
        assert Onward(after, key, key(last), last, last);
        KeepFewer(xs, r => true, r => after(key(last), r));
      case Some(c) =>
        KeepIn(xs, r => after(c, r), i);
        forall s | after(key(last), s) ensures after(c, s) {
          assert Onward(after, key, c, last, s);
        }
        assert Onward(after, key, c, last, last);
        KeepFewer(xs, r => after(c, r), r => after(key(last), r));
    }
  }

  lemma ForwardShrinks<R(!new), C(!new)>(xs: seq<R>, after: (C, R) -> bool, key: R -> C)
    requires Forward(after, key)
    ensures Shrinks((c: Option<C>) => Rows(xs, after, c), key)
  {
    var db := (c: Option<C>) => Rows(xs, after, c);
    forall cursor, i: nat ensures ShrinksAt(db, key, cursor, i) {
      if i < |db(cursor)| {
        RowsShrink(xs, after, key, cursor, i);
      }
    }
  }

  /** What follows a row's cursor is what follows the row. */
  lemma RowsAfter<R, C>(xs: seq<R>, after: (C, R) -> bool, key: R -> C, i: nat)
    requires i < |xs|
    requires forall j :: 0 <= j < |xs| ==> (after(key(xs[i]), xs[j]) <==> i < j)
    ensures FollowsAt((c: Option<C>) => Rows(xs, after, c), key, xs, i)
  {
    KeepSuffix(xs, r => after(key(xs[i]), r), i + 1);
  }

  lemma RowsPass<R, C>(xs: seq<R>, after: (C, R) -> bool, c: C, i: nat)
    requires i < |Rows(xs, after, Some(c))|
    ensures after(c, Rows(xs, after, Some(c))[i])
  {
    KeepIn(xs, r => after(c, r), i);
  }
}
