/**
 Stripe dispatch of metered usage: one idempotent external charge per bucket and
 tenant transaction, and a retry row for each one that raises.
 */
module Billing {
  import opened Wrappers
  import opened Fields

  /** A counter, or a ledger line. */
  datatype Item = Item(key: Key, count: nat)

  function At(items: seq<Item>, k: Key): nat {
    if items == [] then 0
    else At(items[..|items| - 1], k) + if items[|items| - 1].key == k then items[|items| - 1].count else 0
  }

  /** `_idempotency_key` */
  function IdempotencyKey(k: Key): string {
    Join(':', k)
  }

  /** What a dispatch touches.  `accepted` is Stripe's: the quantity of the first request it
      took under each idempotency key.  `charged` and `swallowed` record, bucket by bucket,
      the requests Stripe took and those it answered as replays of an earlier one. */
  datatype Books = Books(retry: seq<Item>, accepted: map<string, nat>, charged: seq<Item>, swallowed: seq<Item>)

  /** One dispatch; `ok` is false when it raises, which means it was not accepted. */
  function Dispatch(b: Books, x: Item, ok: bool): Books {
    var id := IdempotencyKey(x.key);
    if !ok then b.(retry := b.retry + [x])
    else if id in b.accepted then b.(swallowed := b.swallowed + [x])
    else b.(accepted := b.accepted[id := x.count], charged := b.charged + [x])
  }

  function DispatchAll(b: Books, xs: seq<Item>, ok: Key -> bool): Books {
    if xs == [] then b
    else Dispatch(DispatchAll(b, xs[..|xs| - 1], ok), xs[|xs| - 1], ok(xs[|xs| - 1].key))
  }

  /** Stripe and the retry table as one process sees them. */
  class Biller {
    var retry: seq<Item>
    var accepted: map<string, nat>
    ghost var charged: seq<Item>
    ghost var swallowed: seq<Item>

    ghost function State(): Books
      reads this
    {
      Books(retry, accepted, charged, swallowed)
    }

    constructor ()
      ensures State() == Books([], map[], [], [])
    {
      retry, accepted, charged, swallowed := [], map[], [], [];
    }

    /** The dispatcher's `report_usage`; `up` says whether the call gets through. */
    method Send(x: Item, up: bool) returns (ok: bool)
      modifies this
      ensures ok == up
      ensures up ==> State() == Dispatch(old(State()), x, true)
      ensures !up ==> State() == old(State())
    {
      if !up {
        return false;
      }
      var id := IdempotencyKey(x.key);
      if id in accepted {
        swallowed := swallowed + [x];
      } else {
        accepted := accepted[id := x.count];
        charged := charged + [x];
      }
      return true;
    }

    /** `report_usage`: nothing without a billing row or a dispatcher; it never raises. */
    method ReportUsage(xs: seq<Item>, billed: bool, dispatcher: bool, up: Key -> bool)
      modifies this
      ensures State() == if billed && dispatcher then DispatchAll(old(State()), xs, up) else old(State())
    {
      if xs == [] || !billed || !dispatcher {
        return;
      }
      var i := 0;
      while i < |xs|
        invariant 0 <= i <= |xs|
        invariant State() == DispatchAll(old(State()), xs[..i], up)
      {
        assert xs[..i + 1][..i] == xs[..i];
        var ok := Send(xs[i], up(xs[i].key));
        if !ok {
          retry := retry + [xs[i]];
        }
        i := i + 1;
      }
      assert xs[..i] == xs;
    }
  }

  // ---- What a batch does ----

  lemma AtAppend(xs: seq<Item>, x: Item, k: Key)
    ensures At(xs + [x], k) == At(xs, k) + if x.key == k then x.count else 0
  {
    assert (xs + [x])[..|xs|] == xs;
  }

  /** All that was ever dispatched under the bucket's name. */
  function Dispatched(b: Books, k: Key): nat {
    At(b.charged, k) + At(b.retry, k) + At(b.swallowed, k)
  }

  lemma DispatchAccounts(b: Books, x: Item, ok: bool, k: Key)
    ensures Dispatched(Dispatch(b, x, ok), k) == Dispatched(b, k) + if x.key == k then x.count else 0
    ensures At(Dispatch(b, x, ok).charged, k) >= At(b.charged, k)
  {
    AtAppend(b.charged, x, k);
    AtAppend(b.retry, x, k);
    AtAppend(b.swallowed, x, k);
  }

  /** Nothing is lost: every quantity is charged, queued for retry, or taken for a replay. */
  lemma {:induction false} DispatchAllAccounts(b: Books, xs: seq<Item>, ok: Key -> bool, k: Key)
    ensures Dispatched(DispatchAll(b, xs, ok), k) == Dispatched(b, k) + At(xs, k)
    ensures At(DispatchAll(b, xs, ok).charged, k) >= At(b.charged, k)
  {
    if xs != [] {
      var init, x := xs[..|xs| - 1], xs[|xs| - 1];
      DispatchAllAccounts(b, init, ok, k);
      DispatchAccounts(DispatchAll(b, init, ok), x, ok(x.key), k);
    }
  }

  /** Stripe holds one charge per idempotency key, and its bucket's line says how much. */
  ghost predicate ChargedOnce(b: Books) {
    && (forall k :: IdempotencyKey(k) !in b.accepted ==> At(b.charged, k) == 0)
    && (forall k :: IdempotencyKey(k) in b.accepted ==> At(b.charged, k) <= b.accepted[IdempotencyKey(k)])
    && (forall id :: id in b.accepted ==> exists k :: IdempotencyKey(k) == id && At(b.charged, k) == b.accepted[id])
  }

  lemma DispatchKeepsChargedOnce(b: Books, x: Item, ok: bool)
    requires ChargedOnce(b)
    ensures ChargedOnce(Dispatch(b, x, ok))
  {
    var c := Dispatch(b, x, ok);
    forall k ensures At(c.charged, k) ==
      At(b.charged, k) + if ok && IdempotencyKey(x.key) !in b.accepted && x.key == k then x.count else 0
    {
      AtAppend(b.charged, x, k);
    }
    forall id | id in c.accepted ensures exists k :: IdempotencyKey(k) == id && At(c.charged, k) == c.accepted[id] {
      if id in b.accepted {
        var k :| IdempotencyKey(k) == id && At(b.charged, k) == b.accepted[id];
        assert At(c.charged, k) == c.accepted[id];
      } else {
        assert At(c.charged, x.key) == c.accepted[id];
      }
    }
  }

  lemma {:induction false} DispatchAllKeepsChargedOnce(b: Books, xs: seq<Item>, ok: Key -> bool)
    requires ChargedOnce(b)
    ensures ChargedOnce(DispatchAll(b, xs, ok))
  {
    if xs != [] {
      DispatchAllKeepsChargedOnce(b, xs[..|xs| - 1], ok);
      DispatchKeepsChargedOnce(DispatchAll(b, xs[..|xs| - 1], ok), xs[|xs| - 1], ok(xs[|xs| - 1].key));
    }
  }

  ghost predicate Untouched(b: Books, c: Books, k: Key) {
    && (IdempotencyKey(k) in c.accepted <==> IdempotencyKey(k) in b.accepted)
    && (IdempotencyKey(k) in c.accepted ==> c.accepted[IdempotencyKey(k)] == b.accepted[IdempotencyKey(k)])
    && At(c.charged, k) == At(b.charged, k) && At(c.retry, k) == At(b.retry, k)
    && At(c.swallowed, k) == At(b.swallowed, k)
  }

  lemma DispatchElsewhere(b: Books, x: Item, ok: bool, k: Key)
    requires IdempotencyKey(x.key) != IdempotencyKey(k)
    ensures Untouched(b, Dispatch(b, x, ok), k)
  {
    assert x.key != k;
    AtAppend(b.charged, x, k);
    AtAppend(b.retry, x, k);
    AtAppend(b.swallowed, x, k);
  }

  /** A bucket no item of the batch shares its idempotency key with is left alone. */
  lemma {:induction false} DispatchAllElsewhere(b: Books, xs: seq<Item>, ok: Key -> bool, k: Key)
    requires forall i :: 0 <= i < |xs| ==> IdempotencyKey(xs[i].key) != IdempotencyKey(k)
    ensures Untouched(b, DispatchAll(b, xs, ok), k)
  {
    if xs != [] {
      var init, x := xs[..|xs| - 1], xs[|xs| - 1];
      DispatchAllElsewhere(b, init, ok, k);
      DispatchElsewhere(DispatchAll(b, init, ok), x, ok(x.key), k);
    }
  }

  /** What Stripe took under the bucket's key is what the bucket was charged. */
  predicate ExactlyCharged(b: Books, k: Key) {
    At(b.charged, k) == if IdempotencyKey(k) in b.accepted then b.accepted[IdempotencyKey(k)] else 0
  }

  /** A bucket dispatched for the first time is charged or queued, never swallowed. */
  lemma {:induction false} FirstDispatchIsNotSwallowed(b: Books, xs: seq<Item>, ok: Key -> bool, k: Key)
    requires IdempotencyKey(k) !in b.accepted && At(b.charged, k) == 0
    requires forall i, j :: 0 <= i < j < |xs| ==> xs[i].key != xs[j].key
    requires forall i :: 0 <= i < |xs| && IdempotencyKey(xs[i].key) == IdempotencyKey(k) ==> xs[i].key == k
    ensures At(DispatchAll(b, xs, ok).swallowed, k) == At(b.swallowed, k)
    ensures ExactlyCharged(DispatchAll(b, xs, ok), k)
  {
    if xs != [] {
      var init, x := xs[..|xs| - 1], xs[|xs| - 1];
      var c := DispatchAll(b, init, ok);
      if x.key == k {
        DispatchAllElsewhere(b, init, ok, k);
        AtAppend(c.charged, x, k);
      } else {
        FirstDispatchIsNotSwallowed(b, init, ok, k);
        DispatchElsewhere(c, x, ok(x.key), k);
      }
    }
  }

  /** A bucket is charged at most one batch's worth, and nothing once its key is used. */
  lemma {:induction false} ChargeIsBounded(b: Books, xs: seq<Item>, ok: Key -> bool, k: Key)
    requires ChargedOnce(b)
    ensures var c := DispatchAll(b, xs, ok);
            if IdempotencyKey(k) in b.accepted
            then IdempotencyKey(k) in c.accepted && At(c.charged, k) == At(b.charged, k)
            else At(c.charged, k) <= At(xs, k)
  {
    if xs != [] {
      var init, x := xs[..|xs| - 1], xs[|xs| - 1];
      ChargeIsBounded(b, init, ok, k);
      DispatchAllKeepsChargedOnce(b, init, ok);
      AtAppend(DispatchAll(b, init, ok).charged, x, k);
    }
  }

  /** A bucket is swallowed exactly when its call gets through and its key was used before. */
  lemma {:induction false} SwallowedExactly(b: Books, xs: seq<Item>, ok: Key -> bool, k: Key)
    requires forall i, j :: 0 <= i < j < |xs| ==> xs[i].key != xs[j].key
    requires forall i :: 0 <= i < |xs| && IdempotencyKey(xs[i].key) == IdempotencyKey(k) ==> xs[i].key == k
    ensures At(DispatchAll(b, xs, ok).swallowed, k)
         == At(b.swallowed, k) + if ok(k) && IdempotencyKey(k) in b.accepted then At(xs, k) else 0
  {
    if xs != [] {
      var init, x := xs[..|xs| - 1], xs[|xs| - 1];
      var c := DispatchAll(b, init, ok);
      if x.key == k {
        DispatchAllElsewhere(b, init, ok, k);
        AbsentCountsNothing(init, k);
        AtAppend(c.swallowed, x, k);
      } else {
        SwallowedExactly(b, init, ok, k);
        DispatchElsewhere(c, x, ok(x.key), k);
      }
    }
  }

  /** And charged exactly when its call gets through and its key was not used before. */
  lemma {:induction false} ChargedExactly(b: Books, xs: seq<Item>, ok: Key -> bool, k: Key)
    requires ExactlyCharged(b, k)
    requires forall i, j :: 0 <= i < j < |xs| ==> xs[i].key != xs[j].key
    requires forall i :: 0 <= i < |xs| && IdempotencyKey(xs[i].key) == IdempotencyKey(k) ==> xs[i].key == k
    ensures ExactlyCharged(DispatchAll(b, xs, ok), k)
    ensures At(DispatchAll(b, xs, ok).charged, k)
         == At(b.charged, k) + if ok(k) && IdempotencyKey(k) !in b.accepted then At(xs, k) else 0
  {
    if xs != [] {
      var init, x := xs[..|xs| - 1], xs[|xs| - 1];
      var c := DispatchAll(b, init, ok);
      if x.key == k {
        DispatchAllElsewhere(b, init, ok, k);
        AbsentCountsNothing(init, k);
        AtAppend(c.charged, x, k);
      } else {
        ChargedExactly(b, init, ok, k);
        DispatchElsewhere(c, x, ok(x.key), k);
      }
    }
  }

  lemma {:induction false} AbsentCountsNothing(items: seq<Item>, k: Key)
    requires forall j :: 0 <= j < |items| ==> items[j].key != k
    ensures At(items, k) == 0
  {
    if items != [] {
      AbsentCountsNothing(items[..|items| - 1], k);
    }
  }
}
