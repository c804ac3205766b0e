/**
 Billing over whole runs: which buckets can be charged in another's name, when the charge
 is exact, by how much it misses otherwise, and runs in which it does.
 */
module BillingRuns {
  import opened Wrappers
  import opened Fields
  import opened Billing
  import opened Metering
  import opened MeteringRuns

  // ---- Which buckets are billed under another's key ----

  /** A bucket that `increment` takes. */
  predicate Countable(k: Key) {
    Accepts(k, 1)
  }

  ghost predicate HasTwin(k: Key) {
    exists l :: l != k && |l.bucket| == |k.bucket| && Countable(l) && IdempotencyKey(l) == IdempotencyKey(k)
  }

  /** A colon that leaves something on either side of it, inside the tenant or the type. */
  predicate Ambiguous(k: Key)
    requires Countable(k)
  {
    ':' in k.tenant[1..] || ':' in k.recordType[..|k.recordType| - 1]
  }

  lemma CutIsCountable(k: Key, p: nat)
    requires Countable(k) && 0 < p < |Head(':', k)| - 1 && Head(':', k)[p] == ':' && p != |k.tenant|
    ensures HasTwin(k)
  {
    var l := CutAt(':', k, p);
    var s := Head(':', k);
    assert UNIT_SEPARATOR !in s;
    assert s[..p] == l.tenant && s[p + 1..] == l.recordType;
    assert Countable(l) && l != k;
  }

  /** `increment` takes two buckets with one idempotency key exactly when one of them has such a
      colon. */
  lemma TwinsAreAmbiguous(k: Key)
    requires Countable(k)
    ensures HasTwin(k) <==> Ambiguous(k)
  {
    if ':' in k.tenant[1..] {
      var i :| 0 <= i < |k.tenant| - 1 && k.tenant[1..][i] == ':';
      CutIsCountable(k, i + 1);
    } else if ':' in k.recordType[..|k.recordType| - 1] {
      var i :| 0 <= i < |k.recordType| - 1 && k.recordType[..|k.recordType| - 1][i] == ':';
      CutIsCountable(k, |k.tenant| + 1 + i);
    }
    if HasTwin(k) {
      var l :| l != k && |l.bucket| == |k.bucket| && Countable(l) && IdempotencyKey(l) == IdempotencyKey(k);
      SameTextSameHead(':', k, l);
      TwinCutsElsewhere(':', k, l);
      if |l.tenant| < |k.tenant| {
        assert k.tenant[1..][|l.tenant| - 1] == ':';
      } else {
        assert k.recordType[..|k.recordType| - 1][|l.tenant| - |k.tenant| - 1] == ':';
      }
    }
  }

  /** Every bucket counted is written like this one: an ISO minute of the same length. */
  predicate OneFormat(actions: seq<Action>, k: Key) {
    forall i :: 0 <= i < |actions| && actions[i].Increment? ==> |actions[i].key.bucket| == |k.bucket|
  }

  /** Stripe took no more under the bucket's idempotency key than was counted for the bucket. */
  predicate WithinCount(actions: seq<Action>, k: Key) {
    IdempotencyKey(k) in Run(actions).books.accepted ==>
      Run(actions).books.accepted[IdempotencyKey(k)] <= Incremented(actions, k)
  }

  /** In every reachable state, what Stripe accepted under an idempotency key was counted for a
      bucket with that key; and for a bucket without such a colon, for the bucket itself. */
  lemma StripeNeverExceeds(actions: seq<Action>, k: Key)
    ensures IdempotencyKey(k) in Run(actions).books.accepted ==>
              exists l :: IdempotencyKey(l) == IdempotencyKey(k)
                          && Run(actions).books.accepted[IdempotencyKey(k)] <= Incremented(actions, l)
    ensures OneFormat(actions, k) && Countable(k) && !Ambiguous(k) ==> WithinCount(actions, k)
  {
    var b := Run(actions).books;
    if IdempotencyKey(k) in b.accepted {
      RunBounded(actions);
      var l :| IdempotencyKey(l) == IdempotencyKey(k) && At(b.charged, l) == b.accepted[IdempotencyKey(k)];
      assert At(b.charged, l) <= Incremented(actions, l);
      if Incremented(actions, l) > 0 && Countable(k) {
        CountedMeansIncremented(actions, l);
        TwinsAreAmbiguous(k);
      }
    }
  }

  // ---- Exact billing of a bucket that was never split ----

  /** What Stripe took for the bucket and what waits in the retry queue. */
  function BilledFor(s: System, k: Key): nat {
    (if IdempotencyKey(k) in s.books.accepted then s.books.accepted[IdempotencyKey(k)] else 0) + At(s.books.retry, k)
  }

  predicate Shares(items: seq<Item>, k: Key) {
    exists i :: 0 <= i < |items| && IdempotencyKey(items[i].key) == IdempotencyKey(k)
  }

  /** Only flush `i` carries the bucket, and no other bucket has its idempotency key. */
  ghost predicate Sole(fs: seq<Flush>, k: Key, i: nat) {
    && (forall j :: 0 <= j < |fs| && j != i ==> !Shares(fs[j].items, k))
    && (i < |fs| ==> OnlyItself(fs[i].items, k))
  }

  ghost predicate OnlyItself(items: seq<Item>, k: Key) {
    forall j :: 0 <= j < |items| && IdempotencyKey(items[j].key) == IdempotencyKey(k) ==> items[j].key == k
  }

  ghost predicate Clean(s: System, k: Key) {
    At(s.books.swallowed, k) == 0 && At(s.orphaned, k) == 0 && At(s.unbilled, k) == 0 && ExactlyCharged(s.books, k)
  }

  ghost predicate SoleInv(s: System, k: Key, i: nat) {
    if i < |s.flushes| && k.tenant in s.flushes[i].outcomes then
      s.flushes[i].outcomes[k.tenant] == Billed ==> Clean(s, k) && Get(s.usage, k) == At(s.flushes[i].items, k)
    else
      Clean(s, k) && Get(s.usage, k) == 0 && At(s.books.charged, k) == 0 && IdempotencyKey(k) !in s.books.accepted
  }

  ghost predicate AllDistinct(s: System) {
    Distinct(s.active) && forall i :: 0 <= i < |s.flushes| ==> Distinct(s.flushes[i].items)
  }

  lemma StepDistinct(s: System, a: Action)
    requires AllDistinct(s)
    ensures AllDistinct(Step(s, a))
  {
    FlushesPersist(s, a);
    if a.Increment? && Accepts(a.key, a.n) {
      BumpKeys(s.active, a.key, a.n);
    }
  }

  /** A transaction on items that do not concern the bucket leaves its books alone. */
  lemma TransactElsewhere(s: System, a: Action, k: Key)
    requires (a.Commit? || a.Rollback?) && CanTransact(s, a.i, a.tenant)
    requires !Shares(Share(s.flushes[a.i].items, a.tenant), k)
    ensures var t := Step(s, a);
            && Untouched(s.books, t.books, k) && Get(t.usage, k) == Get(s.usage, k)
            && At(t.orphaned, k) == At(s.orphaned, k) && At(t.unbilled, k) == At(s.unbilled, k)
  {
    var xs := Share(s.flushes[a.i].items, a.tenant);
    AbsentCountsNothing(xs, k);
    if a.Commit? {
      DispatchAllElsewhere(s.books, xs, a.up, k);
      UpsertAdds(s.usage, xs, k);
      AtConcat(s.unbilled, xs, k);
    } else {
      DispatchAllElsewhere(s.books, xs[..Least(a.dispatched, |xs|)], a.up, k);
      RollbackBalances(s, a.i, a.tenant, a.billed, a.up, a.dispatched, k);
    }
  }

  lemma FirstCommit(s: System, i: nat, tenant: string, up: Key -> bool, k: Key)
    requires CanTransact(s, i, tenant) && tenant == k.tenant && AllDistinct(s)
    requires OnlyItself(s.flushes[i].items, k) && SoleInv(s, k, i)
    ensures SoleInv(CommitTx(s, i, tenant, true, up), k, i)
  {
    var items := s.flushes[i].items;
    var xs := Share(items, tenant);
    KeepIsFrom(items, t => t == tenant);
    assert OnlyItself(xs, k);
    FirstDispatchIsNotSwallowed(s.books, xs, up, k);
    UpsertAdds(s.usage, xs, k);
    KeepPart(items, t => t == tenant, k);
  }

  lemma OutcomesPersist(s: System, a: Action, i: nat)
    requires i < |Step(s, a).flushes|
    requires !((a.Commit? || a.Rollback?) && a.i == i)
    ensures i < |s.flushes| ==> Step(s, a).flushes[i].outcomes == s.flushes[i].outcomes
    ensures i >= |s.flushes| ==> Step(s, a).flushes[i].outcomes == map[]
  {
  }

  lemma ShareIsForeign(items: seq<Item>, tenant: string, k: Key)
    requires !Shares(items, k) || (tenant != k.tenant && OnlyItself(items, k))
    ensures !Shares(Share(items, tenant), k)
  {
    KeepIsFrom(items, t => t == tenant);
    var xs := Share(items, tenant);
    forall j | 0 <= j < |xs| ensures IdempotencyKey(xs[j].key) != IdempotencyKey(k) {
      var m :| 0 <= m < |items| && items[m] == xs[j];
    }
  }

  lemma ElsewhereKeepsSole(s: System, t: System, k: Key, i: nat)
    requires SoleInv(s, k, i)
    requires Untouched(s.books, t.books, k) && Get(t.usage, k) == Get(s.usage, k)
    requires At(t.orphaned, k) == At(s.orphaned, k) && At(t.unbilled, k) == At(s.unbilled, k)
    requires |t.flushes| == |s.flushes|
    requires i < |s.flushes| ==>
               && t.flushes[i].items == s.flushes[i].items
               && (k.tenant in t.flushes[i].outcomes <==> k.tenant in s.flushes[i].outcomes)
               && (k.tenant in s.flushes[i].outcomes ==>
                   t.flushes[i].outcomes[k.tenant] == s.flushes[i].outcomes[k.tenant])
    ensures SoleInv(t, k, i)
  {
  }

  lemma OwnTransact(s: System, a: Action, k: Key, i: nat)
    requires i < |s.flushes| && AllDistinct(s) && SoleInv(s, k, i) && OnlyItself(s.flushes[i].items, k)
    requires (a.Commit? || a.Rollback?) && CanTransact(s, a.i, a.tenant) && a.i == i && a.tenant == k.tenant
    ensures SoleInv(Step(s, a), k, i)
  {
    if a.Commit? && a.billed {
      FirstCommit(s, i, a.tenant, a.up, k);
    }
  }

  /** A transaction of another flush or tenant leaves the bucket's own outcome as it was. */
  lemma OutcomeElsewhere(s: System, a: Action, tenant: string, i: nat)
    requires (a.Commit? || a.Rollback?) && CanTransact(s, a.i, a.tenant) && !(a.i == i && a.tenant == tenant)
    ensures |Step(s, a).flushes| == |s.flushes|
    ensures i < |s.flushes| ==>
              var f, g := s.flushes[i], Step(s, a).flushes[i];
              && g.items == f.items && (tenant in g.outcomes <==> tenant in f.outcomes)
              && (tenant in f.outcomes ==> g.outcomes[tenant] == f.outcomes[tenant])
  {
  }

  lemma OtherTransact(s: System, a: Action, k: Key, i: nat)
    requires SoleInv(s, k, i) && Sole(s.flushes, k, i)
    requires (a.Commit? || a.Rollback?) && CanTransact(s, a.i, a.tenant) && !(a.i == i && a.tenant == k.tenant)
    ensures SoleInv(Step(s, a), k, i)
  {
    ShareIsForeign(s.flushes[a.i].items, a.tenant, k);
    TransactElsewhere(s, a, k);
    OutcomeElsewhere(s, a, k.tenant, i);
    ElsewhereKeepsSole(s, Step(s, a), k, i);
  }

  lemma TransactSole(s: System, a: Action, k: Key, i: nat)
    requires AllDistinct(s) && SoleInv(s, k, i) && Sole(s.flushes, k, i)
    requires (a.Commit? || a.Rollback?) && CanTransact(s, a.i, a.tenant)
    ensures SoleInv(Step(s, a), k, i)
  {
    if a.i == i && a.tenant == k.tenant {
      OwnTransact(s, a, k, i);
    } else {
      OtherTransact(s, a, k, i);
    }
  }

  lemma StepSole(s: System, a: Action, k: Key, i: nat)
    requires AllDistinct(s) && SoleInv(s, k, i) && Sole(Step(s, a).flushes, k, i)
    ensures Sole(s.flushes, k, i) && SoleInv(Step(s, a), k, i)
  {
    FlushesPersist(s, a);
    assert Sole(s.flushes, k, i);
    if a.Commit? || a.Rollback? {
      if CanTransact(s, a.i, a.tenant) {
        TransactSole(s, a, k, i);
      }
    } else {
      OtherStepsKeepBooks(s, a);
      if i < |Step(s, a).flushes| {
        OutcomesPersist(s, a, i);
      }
    }
  }

  lemma {:induction false} RunSole(actions: seq<Action>, k: Key, i: nat)
    requires Sole(Run(actions).flushes, k, i)
    ensures AllDistinct(Run(actions)) && SoleInv(Run(actions), k, i)
  {
    if actions != [] {
      var init, last := actions[..|actions| - 1], actions[|actions| - 1];
      SolePrefix(Run(init), last, k, i);
      RunSole(init, k, i);
      StepDistinct(Run(init), last);
      StepSole(Run(init), last, k, i);
    }
  }

  lemma SolePrefix(s: System, a: Action, k: Key, i: nat)
    requires Sole(Step(s, a).flushes, k, i)
    ensures Sole(s.flushes, k, i)
  {
    FlushesPersist(s, a);
  }

  /** Exact billing: a bucket that only one flush ever carried, committed for a billed tenant
      with a dispatcher, has accepted + retry == usage == what that flush carried. */
  lemma UnsplitBucketIsBilledExactly(actions: seq<Action>, k: Key, i: nat)
    requires var s := Run(actions);
             Sole(s.flushes, k, i) && i < |s.flushes| && k.tenant in s.flushes[i].outcomes
             && s.flushes[i].outcomes[k.tenant] == Billed
    ensures var s := Run(actions);
            BilledFor(s, k) == Get(s.usage, k) == At(s.flushes[i].items, k)
  {
    RunSole(actions, k, i);
    BooksBalance(actions, k);
  }

  // ---- Exact billing in general ----

  ghost predicate NoneAlike(fs: seq<Flush>, k: Key) {
    forall j :: 0 <= j < |fs| ==> OnlyItself(fs[j].items, k)
  }

  ghost predicate AllFormatted(items: seq<Item>, k: Key) {
    forall i :: 0 <= i < |items| ==> Countable(items[i].key) && |items[i].key.bucket| == |k.bucket|
  }

  lemma StepFormatted(s: System, a: Action, k: Key)
    requires AllDistinct(s) && AllFormatted(s.active, k)
    requires forall i :: 0 <= i < |s.flushes| ==> AllFormatted(s.flushes[i].items, k)
    requires a.Increment? ==> |a.key.bucket| == |k.bucket|
    ensures AllFormatted(Step(s, a).active, k)
    ensures forall i :: 0 <= i < |Step(s, a).flushes| ==> AllFormatted(Step(s, a).flushes[i].items, k)
  {
    FlushesPersist(s, a);
    if a.Increment? && Accepts(a.key, a.n) {
      BumpKeys(s.active, a.key, a.n);
    }
  }

  lemma {:induction false} RunFormatted(actions: seq<Action>, k: Key)
    requires OneFormat(actions, k)
    ensures AllDistinct(Run(actions)) && AllFormatted(Run(actions).active, k)
    ensures forall i :: 0 <= i < |Run(actions).flushes| ==> AllFormatted(Run(actions).flushes[i].items, k)
  {
    if actions != [] {
      RunFormatted(actions[..|actions| - 1], k);
      StepDistinct(Run(actions[..|actions| - 1]), actions[|actions| - 1]);
      StepFormatted(Run(actions[..|actions| - 1]), actions[|actions| - 1], k);
    }
  }

  /** A bucket without such a colon has its key to itself in every run. */
  lemma UnambiguousStandsAlone(actions: seq<Action>, k: Key)
    requires OneFormat(actions, k) && Countable(k) && !Ambiguous(k)
    ensures NoneAlike(Run(actions).flushes, k)
  {
    RunFormatted(actions, k);
    TwinsAreAmbiguous(k);
  }

  /** What a transaction carries for the bucket. */
  function Carried(s: System, a: Action, k: Key): nat
    requires (a.Commit? || a.Rollback?) && CanTransact(s, a.i, a.tenant)
  {
    var xs := Share(s.flushes[a.i].items, a.tenant);
    At(if a.Rollback? then xs[..Least(a.dispatched, |xs|)] else xs, k)
  }

  /** What makes billing differ from usage: a dispatch after the bucket's key had been used, a
      commit for a tenant without a billing row, a charge whose transaction then failed. */
  datatype Drift = Replay | NoBilling | Orphan

  predicate Drifts(d: Drift, s: System, a: Action, k: Key) {
    && (a.Commit? || a.Rollback?) && CanTransact(s, a.i, a.tenant)
    && match d
       case Replay => a.Commit? && a.billed && a.up(k) && IdempotencyKey(k) in s.books.accepted
       case NoBilling => a.Commit? && !a.billed
       case Orphan => a.Rollback? && a.billed && a.up(k) && IdempotencyKey(k) !in s.books.accepted
  }

  function Drifted(d: Drift, s: System, a: Action, k: Key): nat {
    if Drifts(d, s, a, k) then Carried(s, a, k) else 0
  }

  /** The drift of a whole run. */
  function TotalDrift(d: Drift, actions: seq<Action>, k: Key): nat {
    if actions == [] then 0
    else
      var init := actions[..|actions| - 1];
      TotalDrift(d, init, k) + Drifted(d, Run(init), actions[|actions| - 1], k)
  }

  lemma BatchIsItself(items: seq<Item>, tenant: string, n: nat, k: Key)
    requires Distinct(items) && OnlyItself(items, k) && n <= |Share(items, tenant)|
    ensures var xs := Share(items, tenant)[..n]; Distinct(xs) && OnlyItself(xs, k)
  {
    KeepIsFrom(items, t => t == tenant);
  }

  /** One batch in the ledgers: it is swallowed or charged, or it is queued. */
  lemma BatchInLedgers(b: Books, xs: seq<Item>, up: Key -> bool, k: Key)
    requires Distinct(xs) && OnlyItself(xs, k) && ExactlyCharged(b, k)
    ensures var c := DispatchAll(b, xs, up);
            && ExactlyCharged(c, k)
            && At(c.charged, k) == At(b.charged, k)
                + (if up(k) && IdempotencyKey(k) !in b.accepted then At(xs, k) else 0)
            && At(c.swallowed, k) == At(b.swallowed, k)
                + (if up(k) && IdempotencyKey(k) in b.accepted then At(xs, k) else 0)
  {
    SwallowedExactly(b, xs, up, k);
    ChargedExactly(b, xs, up, k);
  }

  /** The three ledgers grow by the three tallies. */
  lemma StepInLedgers(s: System, a: Action, k: Key)
    requires AllDistinct(s) && NoneAlike(s.flushes, k) && ExactlyCharged(s.books, k)
    ensures var t := Step(s, a);
            && ExactlyCharged(t.books, k)
            && At(t.books.swallowed, k) == At(s.books.swallowed, k) + Drifted(Replay, s, a, k)
            && At(t.unbilled, k) == At(s.unbilled, k) + Drifted(NoBilling, s, a, k)
            && At(t.orphaned, k) == At(s.orphaned, k) + Drifted(Orphan, s, a, k)
  {
    if !(a.Commit? || a.Rollback?) {
      OtherStepsKeepBooks(s, a);
    } else if CanTransact(s, a.i, a.tenant) {
      var items := s.flushes[a.i].items;
      var xs := Share(items, a.tenant);
      var n := if a.Rollback? then Least(a.dispatched, |xs|) else |xs|;
      assert xs[..|xs|] == xs;
      BatchIsItself(items, a.tenant, n, k);
      BatchInLedgers(s.books, xs[..n], a.up, k);
      if a.Commit? {
        AtConcat(s.unbilled, xs, k);
      } else {
        RollbackBalances(s, a.i, a.tenant, a.billed, a.up, a.dispatched, k);
      }
    }
  }

  lemma {:induction false} RunInLedgers(actions: seq<Action>, k: Key)
    requires NoneAlike(Run(actions).flushes, k)
    ensures var s := Run(actions);
            && AllDistinct(s) && ExactlyCharged(s.books, k)
            && At(s.books.swallowed, k) == TotalDrift(Replay, actions, k)
            && At(s.unbilled, k) == TotalDrift(NoBilling, actions, k)
            && At(s.orphaned, k) == TotalDrift(Orphan, actions, k)
  {
    if actions != [] {
      var init, last := actions[..|actions| - 1], actions[|actions| - 1];
      FlushesPersist(Run(init), last);
      RunInLedgers(init, k);
      StepDistinct(Run(init), last);
      StepInLedgers(Run(init), last, k);
    }
  }

  /** How billing misses usage, over every run of a bucket with a key of its own: short by what
      was dispatched after its key had been used and by what was committed without billing, over
      by what a failed transaction had charged.  It is exact if and only if these cancel. */
  lemma BillingAgainstUsage(actions: seq<Action>, k: Key)
    requires NoneAlike(Run(actions).flushes, k)
    ensures BilledFor(Run(actions), k) + TotalDrift(Replay, actions, k) + TotalDrift(NoBilling, actions, k)
         == Get(Run(actions).usage, k) + TotalDrift(Orphan, actions, k)
  {
    RunInLedgers(actions, k);
    BooksBalance(actions, k);
  }

  /** No step of the run drifted this way. */
  predicate Never(d: Drift, actions: seq<Action>, k: Key) {
    actions == []
    || (var init := actions[..|actions| - 1];
        Never(d, init, k) && Drifted(d, Run(init), actions[|actions| - 1], k) == 0)
  }

  lemma {:induction false} NeverDrifted(d: Drift, actions: seq<Action>, k: Key)
    ensures TotalDrift(d, actions, k) == 0 <==> Never(d, actions, k)
  {
    if actions != [] {
      NeverDrifted(d, actions[..|actions| - 1], k);
    }
  }

  /** When no failed transaction had charged the bucket, billing never exceeds usage, and is exact
      if and only if no commit was taken for a replay and none went unbilled. */
  lemma ExactIffNeverReplayed(actions: seq<Action>, k: Key)
    requires NoneAlike(Run(actions).flushes, k) && Never(Orphan, actions, k)
    ensures BilledFor(Run(actions), k) <= Get(Run(actions).usage, k)
    ensures BilledFor(Run(actions), k) == Get(Run(actions).usage, k)
        <==> Never(Replay, actions, k) && Never(NoBilling, actions, k)
  {
    BillingAgainstUsage(actions, k);
    NeverDrifted(Orphan, actions, k);
    NeverDrifted(Replay, actions, k);
    NeverDrifted(NoBilling, actions, k);
  }

  // ---- Runs in which something goes wrong ----

  function Up(k: Key): bool { true }

  /** Count `n`, rename the hash and read it back as flush `i`. */
  function CountAndLoad(k: Key, n: nat, i: nat): seq<Action> {
    [Increment(k, n)] + [Rename] + [Load(i)]
  }

  lemma CountAndLoadRuns(actions: seq<Action>, k: Key, n: nat)
    requires Accepts(k, n) && Run(actions).active == []
    ensures var s := Run(actions);
            Run(actions + CountAndLoad(k, n, |s.flushes|))
            == s.(flushes := s.flushes + [Flush([Item(k, n)], true, Working, map[])])
  {
    var i := |Run(actions).flushes|;
    var one := actions + [Increment(k, n)];
    assert actions + CountAndLoad(k, n, i) == one + [Rename] + [Load(i)];
    RunMore(actions, Increment(k, n));
    RunMore(one, Rename);
    RunMore(one + [Rename], Load(i));
  }

  lemma CountAndLoadCounts(actions: seq<Action>, k: Key, n: nat, i: nat, l: Key)
    requires Accepts(k, n)
    ensures Incremented(actions + CountAndLoad(k, n, i), l) == Incremented(actions, l) + if l == k then n else 0
  {
    var one := actions + [Increment(k, n)];
    assert actions + CountAndLoad(k, n, i) == one + [Rename] + [Load(i)];
    IncrementedMore(actions, Increment(k, n), l);
    IncrementedMore(one, Rename, l);
    IncrementedMore(one + [Rename], Load(i), l);
  }

  lemma OneShare(k: Key, n: nat)
    ensures Share([Item(k, n)], k.tenant) == [Item(k, n)] && At([Item(k, n)], k) == n
  {
    assert Keep([], t => t == k.tenant) == [];
  }

  lemma CommitOne(s: System, i: nat, k: Key, n: nat)
    requires i < |s.flushes| && s.flushes[i] == Flush([Item(k, n)], true, Working, map[])
    ensures var t := Step(s, Commit(i, k.tenant, true, Up));
            && t.active == s.active
            && t.flushes == s.flushes[i := Flush([Item(k, n)], true, Working, map[k.tenant := Billed])]
            && Get(t.usage, k) == Get(s.usage, k) + n && t.books == Dispatch(s.books, Item(k, n), true)
  {
    var xs := [Item(k, n)];
    OneShare(k, n);
    assert CanTransact(s, i, k.tenant);
    assert DispatchAll(s.books, xs[..0], Up) == s.books;
    UpsertAdds(s.usage, xs, k);
  }

  /** Count, flush and bill, with Stripe up. */
  function FlushOnce(k: Key, n: nat, i: nat): seq<Action> {
    CountAndLoad(k, n, i) + [Commit(i, k.tenant, true, Up)]
  }

  lemma FlushOnceRuns(actions: seq<Action>, k: Key, n: nat)
    requires Accepts(k, n) && Run(actions).active == []
    ensures var s := Run(actions);
            var t := Run(actions + FlushOnce(k, n, |s.flushes|));
            && t.active == [] && |t.flushes| == |s.flushes| + 1
            && Get(t.usage, k) == Get(s.usage, k) + n && t.books == Dispatch(s.books, Item(k, n), true)
  {
    var i := |Run(actions).flushes|;
    var loaded := actions + CountAndLoad(k, n, i);
    CountAndLoadRuns(actions, k, n);
    assert actions + FlushOnce(k, n, i) == loaded + [Commit(i, k.tenant, true, Up)];
    RunMore(loaded, Commit(i, k.tenant, true, Up));
    CommitOne(Run(loaded), i, k, n);
  }

  lemma FlushOnceCounts(actions: seq<Action>, k: Key, n: nat, i: nat, l: Key)
    requires Accepts(k, n)
    ensures Incremented(actions + FlushOnce(k, n, i), l) == Incremented(actions, l) + if l == k then n else 0
  {
    var loaded := actions + CountAndLoad(k, n, i);
    CountAndLoadCounts(actions, k, n, i, l);
    assert actions + FlushOnce(k, n, i) == loaded + [Commit(i, k.tenant, true, Up)];
    IncrementedMore(loaded, Commit(i, k.tenant, true, Up), l);
  }

  /** Exact billing happens: one flush, committed with billing, from the start. */
  lemma OneFlushIsBilled(k: Key, n: nat)
    requires Accepts(k, n)
    ensures var s := Run(FlushOnce(k, n, 0));
            && Sole(s.flushes, k, 0) && |s.flushes| == 1 && s.flushes[0].outcomes == map[k.tenant := Billed]
            && BilledFor(s, k) == Get(s.usage, k) == n
  {
    var loaded := CountAndLoad(k, n, 0);
    assert [] + loaded == loaded;
    CountAndLoadRuns([], k, n);
    RunMore(loaded, Commit(0, k.tenant, true, Up));
    CommitOne(Run(loaded), 0, k, n);
    FirstDispatch(Item(k, n));
  }

  /** Two buckets flushed one after the other, from the start. */
  function FlushTwice(k: Key, m: nat, l: Key, n: nat): seq<Action> {
    FlushOnce(k, m, 0) + FlushOnce(l, n, 1)
  }

  lemma FlushTwiceRuns(k: Key, m: nat, l: Key, n: nat)
    requires Accepts(k, m) && Accepts(l, n)
    ensures var s := Run(FlushOnce(k, m, 0));
            var t := Run(FlushTwice(k, m, l, n));
            && s.books == Dispatch(START.books, Item(k, m), true) && Get(s.usage, k) == m
            && t.books == Dispatch(s.books, Item(l, n), true) && Get(t.usage, l) == Get(s.usage, l) + n
    ensures forall j :: Incremented(FlushTwice(k, m, l, n), j) == (if j == k then m else 0) + (if j == l then n else 0)
  {
    assert [] + FlushOnce(k, m, 0) == FlushOnce(k, m, 0);
    FlushOnceRuns([], k, m);
    FlushOnceRuns(FlushOnce(k, m, 0), l, n);
    forall j ensures Incremented(FlushTwice(k, m, l, n), j) == (if j == k then m else 0) + (if j == l then n else 0) {
      FlushOnceCounts([], k, m, 0, j);
      FlushOnceCounts(FlushOnce(k, m, 0), l, n, 1, j);
    }
  }

  lemma FirstDispatch(x: Item)
    ensures var b := Dispatch(START.books, x, true);
            && b.accepted == map[IdempotencyKey(x.key) := x.count] && b.retry == [] && b.swallowed == []
  {
  }

  /** A bucket split over two flushes, with Stripe up both times: usage has both shares, Stripe
      only the first, and nothing is queued. */
  lemma SplitBucketIsShort(k: Key, m: nat, n: nat)
    requires Accepts(k, m) && Accepts(k, n)
    ensures var s := Run(FlushTwice(k, m, k, n));
            Get(s.usage, k) == m + n && BilledFor(s, k) == m && s.books.retry == []
  {
    FlushTwiceRuns(k, m, k, n);
    FirstDispatch(Item(k, m));
  }

  /** Two buckets with one key, one after the other: Stripe holds the first one's count under
      the key of the second, and never hears of the second's. */
  lemma TwinIsChargedInstead(k: Key, l: Key, m: nat, n: nat)
    requires Accepts(l, m) && Accepts(k, n) && l != k && IdempotencyKey(l) == IdempotencyKey(k)
    ensures var actions := FlushTwice(l, m, k, n);
            && BilledFor(Run(actions), k) == m && Run(actions).books.retry == []
            && Incremented(actions, l) == m && Incremented(actions, k) == n && Get(Run(actions).usage, k) >= n
  {
    FlushTwiceRuns(l, m, k, n);
    FirstDispatch(Item(l, m));
  }

  lemma FlushTwiceFormat(k: Key, m: nat, l: Key, n: nat)
    requires |l.bucket| == |k.bucket|
    ensures OneFormat(FlushTwice(l, m, k, n), k)
  {
    var actions := FlushTwice(l, m, k, n);
    assert |actions| == 8;
    assert actions[0] == Increment(l, m) && actions[4] == Increment(k, n);
    assert actions[1] == Rename && actions[5] == Rename && actions[2].Load? && actions[6].Load?
           && actions[3].Commit? && actions[7].Commit?;
  }

  /** Over all runs, Stripe's quantity under a bucket's key stays within what was counted for the
      bucket if and only if no colon splits its tenant or its record type. */
  lemma BoundHoldsIffUnambiguous(k: Key)
    requires Countable(k)
    ensures (forall actions :: OneFormat(actions, k) ==> WithinCount(actions, k)) <==> !Ambiguous(k)
  {
    TwinsAreAmbiguous(k);
    if Ambiguous(k) {
      var l :| l != k && |l.bucket| == |k.bucket| && Countable(l) && IdempotencyKey(l) == IdempotencyKey(k);
      TwinIsChargedInstead(k, l, 2, 1);
      FlushTwiceFormat(k, 1, l, 2);
      var actions := FlushTwice(l, 2, k, 1);
      assert OneFormat(actions, k) && !WithinCount(actions, k);
    } else {
      forall actions | OneFormat(actions, k) ensures WithinCount(actions, k) {
        StripeNeverExceeds(actions, k);
      }
    }
  }

  /** Such a pair: `increment` takes both, and one is billed as the other. */
  lemma ColonsCollide(bucket: string)
    ensures var k, l := Key("a:b", "c", bucket), Key("a", "b:c", bucket);
            var actions := FlushTwice(l, 2, k, 1);
            && Countable(k) && Countable(l) && Ambiguous(k)
            && IdempotencyKey(k) in Run(actions).books.accepted
            && Run(actions).books.accepted[IdempotencyKey(k)] > Incremented(actions, k)
  {
    var k, l := Key("a:b", "c", bucket), Key("a", "b:c", bucket);
    assert "a:b" + [':'] + "c" == "a" + [':'] + "b:c";
    assert k.tenant[1..][0] == ':';
    TwinIsChargedInstead(k, l, 2, 1);
    FlushTwiceRuns(l, 2, k, 1);
    FirstDispatch(Item(l, 2));
  }

  lemma CrashAndExpire(s: System)
    requires |s.flushes| == 1 && s.active == []
    ensures var t := Step(Step(s, Crash(0)), ExpireFlush(0));
            && t.active == [] && t.usage == s.usage
            && |t.flushes| == 1 && !Recoverable(t.flushes[0])
  {
  }

  lemma CrashAndExpireRuns(actions: seq<Action>, k: Key)
    ensures var after := actions + [Crash(0)] + [ExpireFlush(0)];
            && Run(after) == Step(Step(Run(actions), Crash(0)), ExpireFlush(0))
            && Incremented(after, k) == Incremented(actions, k)
  {
    RunMore(actions, Crash(0));
    RunMore(actions + [Crash(0)], ExpireFlush(0));
    IncrementedMore(actions, Crash(0), k);
    IncrementedMore(actions + [Crash(0)], ExpireFlush(0), k);
  }

  lemma NothingInFlight(fs: seq<Flush>, k: Key)
    requires |fs| == 1 && !Recoverable(fs[0])
    ensures InFlight(fs, k) == 0
  {
    assert InFlight(fs[..0], k) == 0;
  }

  /** A flush that crashes before its transaction, and whose hash then expires: what it carried
      is nowhere but among the expired counts. */
  lemma CrashedCountsAreLost(k: Key, n: nat)
    requires Accepts(k, n)
    ensures var actions := CountAndLoad(k, n, 0) + [Crash(0)] + [ExpireFlush(0)];
            var s := Run(actions);
            && At(s.dropped, k) == n == Incremented(actions, k)
            && At(s.active, k) == 0 && InFlight(s.flushes, k) == 0 && Get(s.usage, k) == 0
  {
    var loaded := CountAndLoad(k, n, 0);
    assert [] + loaded == loaded;
    CountAndLoadRuns([], k, n);
    CountAndLoadCounts([], k, n, 0, k);
    CrashAndExpire(Run(loaded));
    CrashAndExpireRuns(loaded, k);
    var actions := loaded + [Crash(0)] + [ExpireFlush(0)];
    NothingInFlight(Run(actions).flushes, k);
    CountsAreConserved(actions, k);
  }

  /** A transaction that fails after its dispatch: Stripe keeps the charge, usage has nothing, and
      nobody comes back to it. */
  lemma RolledBackChargeStays(k: Key, n: nat)
    requires Accepts(k, n)
    ensures var s := Run(CountAndLoad(k, n, 0) + [Rollback(0, k.tenant, true, Up, 1)]);
            && BilledFor(s, k) == n && Get(s.usage, k) == 0
            && |s.flushes| == 1 && s.flushes[0].worker == Gone
  {
    var loaded := CountAndLoad(k, n, 0);
    assert [] + loaded == loaded;
    CountAndLoadRuns([], k, n);
    RunMore(loaded, Rollback(0, k.tenant, true, Up, 1));
    RollbackOne(Run(loaded), k, n);
    FirstDispatch(Item(k, n));
  }

  lemma RollbackOne(s: System, k: Key, n: nat)
    requires s.flushes == [Flush([Item(k, n)], true, Working, map[])]
    ensures var t := Step(s, Rollback(0, k.tenant, true, Up, 1));
            var b := Dispatch(s.books, Item(k, n), true);
            && t.usage == s.usage && t.books.accepted == b.accepted && t.books.retry == s.books.retry
            && |t.flushes| == 1 && t.flushes[0].worker == Gone
  {
    var xs := [Item(k, n)];
    OneShare(k, n);
    assert CanTransact(s, 0, k.tenant);
    assert xs[..Least(1, |xs|)] == xs;
    assert DispatchAll(s.books, xs[..0], Up) == s.books;
  }
}
