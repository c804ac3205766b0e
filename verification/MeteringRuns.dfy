/**
 Every interleaving of increments, flushes, crashes, rollbacks and expiries.  Nothing
 counted is lost or doubled on its way to `usage_records`, and Stripe never takes more
 for a bucket than was counted for it.
 */
module MeteringRuns {
  import opened Wrappers
  import opened Fields
  import opened Billing
  import opened Metering

  datatype TxOutcome = Billed | Unbilled | RolledBack

  /** A flush task: it has renamed the hash; it has read it into memory; it is gone. */
  datatype Worker = NotRead | Working | Gone

  /** `stored`: the flush hash still exists. */
  datatype Flush = Flush(items: seq<Item>, stored: bool, worker: Worker, outcomes: map<string, TxOutcome>)

  /** `dropped`, `orphaned` and `unbilled` are ledgers: counts that expired, charges whose
      transaction rolled back, and usage committed without a dispatch. */
  datatype System = System(active: seq<Item>, flushes: seq<Flush>, usage: map<Key, nat>, books: Books,
                           dropped: seq<Item>, orphaned: seq<Item>, unbilled: seq<Item>)

  const START := System([], [], map[], Books([], map[], [], []), [], [], [])

  datatype Action =
    | Increment(key: Key, n: int)
    | ExpireActive
    | Rename
    | Load(i: nat)
    | Commit(i: nat, tenant: string, billed: bool, up: Key -> bool)
    | Rollback(i: nat, tenant: string, billed: bool, up: Key -> bool, dispatched: nat)
    | Crash(i: nat)
    | Finish(i: nat)
    | ExpireFlush(i: nat)

  predicate Committed(f: Flush, tenant: string) {
    tenant in f.outcomes && f.outcomes[tenant] != RolledBack
  }

  /** The counters no transaction has committed. */
  function Remaining(f: Flush): seq<Item> {
    Keep(f.items, t => !Committed(f, t))
  }

  /** Still held somewhere: in the flush hash, or in the worker's memory. */
  predicate Recoverable(f: Flush) {
    f.stored || f.worker == Working
  }

  function Uncommitted(f: Flush, k: Key): nat {
    if Recoverable(f) then At(Remaining(f), k) else 0
  }

  /** The flush after it changed to `g`; what only the old one still held is dropped. */
  function Become(s: System, i: nat, g: Flush): System
    requires i < |s.flushes|
  {
    var t := s.(flushes := s.flushes[i := g]);
    if Recoverable(s.flushes[i]) && !Recoverable(g) then t.(dropped := t.dropped + Remaining(g)) else t
  }

  predicate CanTransact(s: System, i: nat, tenant: string) {
    && i < |s.flushes| && s.flushes[i].worker == Working
    && tenant !in s.flushes[i].outcomes && Share(s.flushes[i].items, tenant) != []
  }

  function CommitTx(s: System, i: nat, tenant: string, billed: bool, up: Key -> bool): System
    requires CanTransact(s, i, tenant)
  {
    var f := s.flushes[i];
    var xs := Share(f.items, tenant);
    s.(flushes := s.flushes[i := f.(outcomes := f.outcomes[tenant := if billed then Billed else Unbilled])],
       usage := UpsertAll(s.usage, xs),
       books := if billed then DispatchAll(s.books, xs, up) else s.books,
       unbilled := if billed then s.unbilled else s.unbilled + xs)
  }

  function Least(a: nat, b: nat): nat { if a <= b then a else b }

  /** The transaction fails after some dispatches: its rows go, Stripe's charges stay, and the
      exception ends the flush. */
  function RollbackTx(s: System, i: nat, tenant: string, billed: bool, up: Key -> bool, dispatched: nat): System
    requires CanTransact(s, i, tenant)
  {
    var f := s.flushes[i];
    var xs := Share(f.items, tenant);
    var g := f.(outcomes := f.outcomes[tenant := RolledBack], worker := Gone);
    var after := if billed then DispatchAll(s.books, xs[..Least(dispatched, |xs|)], up) else s.books;
    ChargedGrows(s.books, xs[..Least(dispatched, |xs|)], up);
    Become(s, i, g).(books := s.books.(accepted := after.accepted, charged := after.charged),
                     orphaned := s.orphaned + after.charged[|s.books.charged|..])
  }

  function Step(s: System, a: Action): System {
    match a
    case Increment(k, n) => if Accepts(k, n) then s.(active := Bump(s.active, k, n)) else s
    case ExpireActive => s.(active := [], dropped := s.dropped + s.active)
    case Rename =>
      if s.active == [] then s
      else s.(active := [], flushes := s.flushes + [Flush(s.active, true, NotRead, map[])])
    case Load(i) =>
      if i < |s.flushes| && s.flushes[i].worker == NotRead then
        Become(s, i, s.flushes[i].(worker := if s.flushes[i].stored then Working else Gone))
      else s
    case Commit(i, tenant, billed, up) => if CanTransact(s, i, tenant) then CommitTx(s, i, tenant, billed, up) else s
    case Rollback(i, tenant, billed, up, n) =>
      if CanTransact(s, i, tenant) then RollbackTx(s, i, tenant, billed, up, n) else s
    case Crash(i) => if i < |s.flushes| then Become(s, i, s.flushes[i].(worker := Gone)) else s
    case Finish(i) =>
      if i < |s.flushes| && s.flushes[i].worker == Working && Remaining(s.flushes[i]) == [] then
        Become(s, i, s.flushes[i].(worker := Gone, stored := false))
      else s
    case ExpireFlush(i) => if i < |s.flushes| then Become(s, i, s.flushes[i].(stored := false)) else s
  }

  function Run(actions: seq<Action>): System {
    if actions == [] then START else Step(Run(actions[..|actions| - 1]), actions[|actions| - 1])
  }

  lemma RunMore(actions: seq<Action>, a: Action)
    ensures Run(actions + [a]) == Step(Run(actions), a)
  {
    assert (actions + [a])[..|actions|] == actions;
  }

  /** What the callers of `increment` counted, read off the history. */
  function Incremented(actions: seq<Action>, k: Key): nat {
    if actions == [] then 0 else Incremented(actions[..|actions| - 1], k) + Counted(actions[|actions| - 1], k)
  }

  function Counted(a: Action, k: Key): nat {
    if a.Increment? && a.key == k && Accepts(k, a.n) then a.n else 0
  }

  lemma IncrementedMore(actions: seq<Action>, a: Action, k: Key)
    ensures Incremented(actions + [a], k) == Incremented(actions, k) + Counted(a, k)
  {
    assert (actions + [a])[..|actions|] == actions;
  }

  // ---- Sums ----

  lemma {:induction false} AtConcat(xs: seq<Item>, ys: seq<Item>, k: Key)
    ensures At(xs + ys, k) == At(xs, k) + At(ys, k)
  {
    if ys == [] {
      assert xs + ys == xs;
    } else {
      AtConcat(xs, ys[..|ys| - 1], k);
      assert (xs + ys)[..|xs + ys| - 1] == xs + ys[..|ys| - 1];
    }
  }

  lemma {:induction false} ChargedGrows(b: Books, xs: seq<Item>, up: Key -> bool)
    ensures b.charged <= DispatchAll(b, xs, up).charged
  {
    if xs != [] {
      ChargedGrows(b, xs[..|xs| - 1], up);
    }
  }

  function InFlight(fs: seq<Flush>, k: Key): nat {
    if fs == [] then 0 else InFlight(fs[..|fs| - 1], k) + Uncommitted(fs[|fs| - 1], k)
  }

  lemma {:induction false} InFlightUpdate(fs: seq<Flush>, i: nat, g: Flush, k: Key)
    requires i < |fs|
    ensures InFlight(fs[i := g], k) + Uncommitted(fs[i], k) == InFlight(fs, k) + Uncommitted(g, k)
  {
    var init := fs[..|fs| - 1];
    if i == |fs| - 1 {
      assert fs[i := g][..|fs| - 1] == init;
    } else {
      InFlightUpdate(init, i, g, k);
      assert fs[i := g][..|fs| - 1] == init[i := g];
    }
  }

  lemma InFlightAppend(fs: seq<Flush>, g: Flush, k: Key)
    ensures InFlight(fs + [g], k) == InFlight(fs, k) + Uncommitted(g, k)
  {
    assert (fs + [g])[..|fs|] == fs;
  }

  // ---- Conservation of counts ----

  /** Everything counted for a bucket, wherever it is now. */
  function Total(s: System, k: Key): nat {
    At(s.active, k) + InFlight(s.flushes, k) + Get(s.usage, k) + At(s.dropped, k)
  }

  lemma RemainingPart(f: Flush, k: Key)
    ensures At(Remaining(f), k) == if Committed(f, k.tenant) then 0 else At(f.items, k)
  {
    KeepPart(f.items, t => !Committed(f, t), k);
  }

  lemma BecomeKeepsTotal(s: System, i: nat, g: Flush, k: Key)
    requires i < |s.flushes| && g.items == s.flushes[i].items
    requires forall t :: Committed(g, t) <==> Committed(s.flushes[i], t)
    requires Recoverable(g) ==> Recoverable(s.flushes[i])
    ensures Total(Become(s, i, g), k) == Total(s, k)
  {
    InFlightUpdate(s.flushes, i, g, k);
    RemainingPart(s.flushes[i], k);
    RemainingPart(g, k);
    AtConcat(s.dropped, Remaining(g), k);
  }

  lemma CommitKeepsTotal(s: System, i: nat, tenant: string, billed: bool, up: Key -> bool, k: Key)
    requires CanTransact(s, i, tenant)
    ensures Total(CommitTx(s, i, tenant, billed, up), k) == Total(s, k)
  {
    var f := s.flushes[i];
    var g := CommitTx(s, i, tenant, billed, up).flushes[i];
    InFlightUpdate(s.flushes, i, g, k);
    RemainingPart(f, k);
    RemainingPart(g, k);
    UpsertAdds(s.usage, Share(f.items, tenant), k);
    KeepPart(f.items, t => t == tenant, k);
  }

  lemma RenameKeepsTotal(s: System, k: Key)
    ensures Total(Step(s, Rename), k) == Total(s, k)
  {
    if s.active != [] {
      var g := Flush(s.active, true, NotRead, map[]);
      InFlightAppend(s.flushes, g, k);
      RemainingPart(g, k);
    }
  }

  lemma StepTotal(s: System, a: Action, k: Key)
    ensures Total(Step(s, a), k) == Total(s, k) + Counted(a, k)
  {
    match a
    case Increment(key, n) =>
      if Accepts(key, n) {
        BumpAdds(s.active, key, n, k);
      }
    case ExpireActive => AtConcat(s.dropped, s.active, k);
    case Rename => RenameKeepsTotal(s, k);
    case Load(i) =>
      if i < |s.flushes| && s.flushes[i].worker == NotRead {
        BecomeKeepsTotal(s, i, s.flushes[i].(worker := if s.flushes[i].stored then Working else Gone), k);
      }
    case Commit(i, tenant, billed, up) =>
      if CanTransact(s, i, tenant) {
        CommitKeepsTotal(s, i, tenant, billed, up, k);
      }
    case Rollback(i, tenant, billed, up, n) =>
      if CanTransact(s, i, tenant) {
        BecomeKeepsTotal(s, i, s.flushes[i].(outcomes := s.flushes[i].outcomes[tenant := RolledBack], worker := Gone),
                         k);
      }
    case Crash(i) =>
      if i < |s.flushes| {
        BecomeKeepsTotal(s, i, s.flushes[i].(worker := Gone), k);
      }
    case Finish(i) =>
      if i < |s.flushes| && s.flushes[i].worker == Working {
        BecomeKeepsTotal(s, i, s.flushes[i].(worker := Gone, stored := false), k);
      }
    case ExpireFlush(i) =>
      if i < |s.flushes| {
        BecomeKeepsTotal(s, i, s.flushes[i].(stored := false), k);
      }
  }

  /** In every reachable state, what was counted for a bucket is in the active hash, in a
      surviving flush that has not committed it, in `usage_records`, or expired. */
  lemma {:induction false} CountsAreConserved(actions: seq<Action>, k: Key)
    ensures var s := Run(actions);
            Incremented(actions, k)
            == At(s.active, k) + InFlight(s.flushes, k) + Get(s.usage, k) + At(s.dropped, k)
  {
    if actions != [] {
      CountsAreConserved(actions[..|actions| - 1], k);
      StepTotal(Run(actions[..|actions| - 1]), actions[|actions| - 1], k);
    }
  }

  // ---- What becomes of a flush ----

  /** The flush is over, and as it was. */
  predicate Over(f: Flush, g: Flush) {
    f.worker == Gone && g.worker == Gone && g.items == f.items && g.outcomes == f.outcomes
  }

  lemma StepLeavesOver(s: System, a: Action, i: nat)
    requires i < |s.flushes| && s.flushes[i].worker == Gone
    ensures i < |Step(s, a).flushes| && Over(s.flushes[i], Step(s, a).flushes[i])
  {
    if a.Commit? && CanTransact(s, a.i, a.tenant) {
      assert a.i != i;
    } else if a.Rollback? && CanTransact(s, a.i, a.tenant) {
      assert a.i != i;
    }
  }

  lemma {:induction false} KeepAgrees(items: seq<Item>, p: string -> bool, q: string -> bool)
    requires forall t :: p(t) == q(t)
    ensures Keep(items, p) == Keep(items, q)
  {
    if items != [] {
      KeepAgrees(items[..|items| - 1], p, q);
    }
  }

  /** Its hash is still there, or it is over and left nothing. */
  predicate Safe(f: Flush) {
    f.stored || (f.worker == Gone && Remaining(f) == [])
  }

  ghost predicate NothingLost(s: System) {
    s.dropped == [] && forall i :: 0 <= i < |s.flushes| ==> Safe(s.flushes[i])
  }

  lemma FinishedIsSafe(f: Flush)
    requires Remaining(f) == []
    ensures Safe(f.(worker := Gone, stored := false))
  {
    var g := f.(worker := Gone, stored := false);
    KeepAgrees(f.items, t => !Committed(g, t), t => !Committed(f, t));
  }

  lemma StepLosesNothing(s: System, a: Action)
    requires NothingLost(s) && !a.ExpireActive? && !a.ExpireFlush?
    ensures NothingLost(Step(s, a))
  {
    if a.Finish? && a.i < |s.flushes| && s.flushes[a.i].worker == Working && Remaining(s.flushes[a.i]) == [] {
      FinishedIsSafe(s.flushes[a.i]);
    }
  }

  /** Only expiry loses counts: while nothing expires, crashes and failed transactions leave every
      count in the active hash, in a flush hash, or in usage. */
  lemma {:induction false} OnlyExpiryLoses(actions: seq<Action>)
    requires forall i :: 0 <= i < |actions| ==> !actions[i].ExpireActive? && !actions[i].ExpireFlush?
    ensures NothingLost(Run(actions))
  {
    if actions != [] {
      OnlyExpiryLoses(actions[..|actions| - 1]);
      StepLosesNothing(Run(actions[..|actions| - 1]), actions[|actions| - 1]);
    }
  }

  /** Nothing picks a crashed flush up again: whatever follows, its transactions stay as they
      were, and what it had not committed stays uncommitted. */
  lemma {:induction false} CrashedFlushIsNeverResumed(actions: seq<Action>, more: seq<Action>, i: nat)
    requires i < |Run(actions).flushes| && Run(actions).flushes[i].worker == Gone
    ensures i < |Run(actions + more).flushes|
    ensures var f, g := Run(actions).flushes[i], Run(actions + more).flushes[i];
            Over(f, g) && Remaining(g) == Remaining(f)
  {
    if more == [] {
      assert actions + more == actions;
    } else {
      var init, last := more[..|more| - 1], more[|more| - 1];
      CrashedFlushIsNeverResumed(actions, init, i);
      assert actions + more == (actions + init) + [last];
      RunMore(actions + init, last);
      StepLeavesOver(Run(actions + init), last, i);
      var f, g := Run(actions).flushes[i], Run(actions + more).flushes[i];
      KeepAgrees(f.items, t => !Committed(g, t), t => !Committed(f, t));
    }
  }

  /** What the committed transactions of all flushes carried for the bucket. */
  function CommittedBy(fs: seq<Flush>, k: Key): nat {
    if fs == [] then 0
    else
      var last := fs[|fs| - 1];
      CommittedBy(fs[..|fs| - 1], k) + if Committed(last, k.tenant) then At(last.items, k) else 0
  }

  lemma {:induction false} CommittedUpdate(fs: seq<Flush>, i: nat, g: Flush, k: Key)
    requires i < |fs| && g.items == fs[i].items
    ensures CommittedBy(fs[i := g], k) + (if Committed(fs[i], k.tenant) then At(g.items, k) else 0)
         == CommittedBy(fs, k) + (if Committed(g, k.tenant) then At(g.items, k) else 0)
  {
    var init := fs[..|fs| - 1];
    if i == |fs| - 1 {
      assert fs[i := g][..|fs| - 1] == init;
    } else {
      CommittedUpdate(init, i, g, k);
      assert fs[i := g][..|fs| - 1] == init[i := g];
    }
  }

  lemma BecomeCommits(s: System, i: nat, g: Flush, k: Key)
    requires i < |s.flushes| && g.items == s.flushes[i].items
    requires Committed(g, k.tenant) <==> Committed(s.flushes[i], k.tenant)
    ensures CommittedBy(Become(s, i, g).flushes, k) == CommittedBy(s.flushes, k)
  {
    CommittedUpdate(s.flushes, i, g, k);
  }

  lemma CommitCommits(s: System, i: nat, tenant: string, billed: bool, up: Key -> bool, k: Key)
    requires CanTransact(s, i, tenant) && Get(s.usage, k) == CommittedBy(s.flushes, k)
    ensures var t := CommitTx(s, i, tenant, billed, up); Get(t.usage, k) == CommittedBy(t.flushes, k)
  {
    var f := s.flushes[i];
    var g := CommitTx(s, i, tenant, billed, up).flushes[i];
    CommittedUpdate(s.flushes, i, g, k);
    UpsertAdds(s.usage, Share(f.items, tenant), k);
    KeepPart(f.items, u => u == tenant, k);
  }

  lemma StepCommits(s: System, a: Action, k: Key)
    requires Get(s.usage, k) == CommittedBy(s.flushes, k)
    ensures Get(Step(s, a).usage, k) == CommittedBy(Step(s, a).flushes, k)
  {
    match a
    case Increment(key, n) =>
    case ExpireActive =>
    case Rename =>
      if s.active != [] {
        assert Step(s, a).flushes[..|s.flushes|] == s.flushes;
      }
    case Load(i) =>
      if i < |s.flushes| {
        BecomeCommits(s, i, s.flushes[i].(worker := if s.flushes[i].stored then Working else Gone), k);
      }
    case Commit(i, tenant, billed, up) =>
      if CanTransact(s, i, tenant) {
        CommitCommits(s, i, tenant, billed, up, k);
      }
    case Rollback(i, tenant, billed, up, n) =>
      if CanTransact(s, i, tenant) {
        BecomeCommits(s, i, s.flushes[i].(outcomes := s.flushes[i].outcomes[tenant := RolledBack], worker := Gone), k);
      }
    case Crash(i) =>
      if i < |s.flushes| {
        BecomeCommits(s, i, s.flushes[i].(worker := Gone), k);
      }
    case Finish(i) =>
      if i < |s.flushes| {
        BecomeCommits(s, i, s.flushes[i].(worker := Gone, stored := false), k);
      }
    case ExpireFlush(i) =>
      if i < |s.flushes| {
        BecomeCommits(s, i, s.flushes[i].(stored := false), k);
      }
  }

  /** A count reaches `usage_records` exactly when its tenant's transaction of its flush
      committed: usage is the sum of what those transactions carried. */
  lemma {:induction false} UsageIsWhatCommitted(actions: seq<Action>, k: Key)
    ensures Get(Run(actions).usage, k) == CommittedBy(Run(actions).flushes, k)
  {
    if actions != [] {
      var s, a := Run(actions[..|actions| - 1]), actions[|actions| - 1];
      UsageIsWhatCommitted(actions[..|actions| - 1], k);
      StepCommits(s, a, k);
    }
  }

  // ---- Double entry between usage and billing ----

  lemma RollbackBalances(s: System, i: nat, tenant: string, billed: bool, up: Key -> bool, n: nat, k: Key)
    requires CanTransact(s, i, tenant)
    ensures var t := RollbackTx(s, i, tenant, billed, up, n);
            && t.usage == s.usage && t.unbilled == s.unbilled
            && At(t.orphaned, k) + Dispatched(s.books, k) == At(s.orphaned, k) + Dispatched(t.books, k)
  {
    var xs := Share(s.flushes[i].items, tenant);
    var after := if billed then DispatchAll(s.books, xs[..Least(n, |xs|)], up) else s.books;
    ChargedGrows(s.books, xs[..Least(n, |xs|)], up);
    var more := after.charged[|s.books.charged|..];
    assert after.charged == s.books.charged + more;
    AtConcat(s.books.charged, more, k);
    AtConcat(s.orphaned, more, k);
  }

  lemma CommitBalances(s: System, i: nat, tenant: string, billed: bool, up: Key -> bool, k: Key)
    requires CanTransact(s, i, tenant)
    ensures var t := CommitTx(s, i, tenant, billed, up);
            Get(t.usage, k) + Dispatched(s.books, k) + At(s.unbilled, k)
            == Get(s.usage, k) + Dispatched(t.books, k) + At(t.unbilled, k)
  {
    var xs := Share(s.flushes[i].items, tenant);
    UpsertAdds(s.usage, xs, k);
    DispatchAllAccounts(s.books, xs, up, k);
    AtConcat(s.unbilled, xs, k);
  }

  predicate Balanced(s: System, k: Key) {
    Get(s.usage, k) + At(s.orphaned, k)
    == At(s.books.charged, k) + At(s.books.retry, k) + At(s.books.swallowed, k) + At(s.unbilled, k)
  }

  lemma OtherStepsKeepBooks(s: System, a: Action)
    requires !a.Commit? && !a.Rollback?
    ensures var t := Step(s, a);
            t.usage == s.usage && t.books == s.books && t.orphaned == s.orphaned && t.unbilled == s.unbilled
  {
  }

  lemma StepBalances(s: System, a: Action, k: Key)
    requires Balanced(s, k)
    ensures Balanced(Step(s, a), k)
  {
    if a.Commit? {
      if CanTransact(s, a.i, a.tenant) {
        CommitBalances(s, a.i, a.tenant, a.billed, a.up, k);
      }
    } else if a.Rollback? {
      if CanTransact(s, a.i, a.tenant) {
        RollbackBalances(s, a.i, a.tenant, a.billed, a.up, a.dispatched, k);
      }
    } else {
      OtherStepsKeepBooks(s, a);
    }
  }

  /** In every reachable state: usage plus charges orphaned by a rollback equals charges, plus
      retries, plus replays Stripe ignored, plus usage that was never dispatched. */
  lemma {:induction false} BooksBalance(actions: seq<Action>, k: Key)
    ensures Balanced(Run(actions), k)
  {
    if actions != [] {
      BooksBalance(actions[..|actions| - 1], k);
      StepBalances(Run(actions[..|actions| - 1]), actions[|actions| - 1], k);
    }
  }

  // ---- Stripe never takes more than was counted ----

  ghost predicate Bounded(s: System, limit: Key -> nat) {
    && ChargedOnce(s.books)
    && (forall k :: At(s.books.charged, k) <= limit(k))
    && (forall k :: At(s.active, k) <= limit(k))
    && (forall i, k :: 0 <= i < |s.flushes| ==> At(s.flushes[i].items, k) <= limit(k))
  }

  lemma BatchWithinFlush(items: seq<Item>, tenant: string, n: nat, k: Key)
    ensures At(Share(items, tenant)[..Least(n, |Share(items, tenant)|)], k) <= At(items, k)
  {
    var xs := Share(items, tenant);
    var m := Least(n, |xs|);
    AtConcat(xs[..m], xs[m..], k);
    assert xs[..m] + xs[m..] == xs;
    KeepPart(items, t => t == tenant, k);
  }

  lemma BatchBounded(b: Books, xs: seq<Item>, up: Key -> bool, limit: Key -> nat)
    requires ChargedOnce(b)
    requires forall k :: At(b.charged, k) <= limit(k)
    requires forall k :: At(xs, k) <= limit(k)
    ensures ChargedOnce(DispatchAll(b, xs, up))
    ensures forall k :: At(DispatchAll(b, xs, up).charged, k) <= limit(k)
  {
    DispatchAllKeepsChargedOnce(b, xs, up);
    forall k ensures At(DispatchAll(b, xs, up).charged, k) <= limit(k) {
      ChargeIsBounded(b, xs, up, k);
    }
  }

  /** Items never change once renamed. */
  lemma FlushesPersist(s: System, a: Action)
    ensures |s.flushes| <= |Step(s, a).flushes|
    ensures forall i :: 0 <= i < |s.flushes| ==> Step(s, a).flushes[i].items == s.flushes[i].items
    ensures forall i :: |s.flushes| <= i < |Step(s, a).flushes| ==> Step(s, a).flushes[i].items == s.active
  {
  }

  lemma TransactBounded(s: System, a: Action, limit: Key -> nat)
    requires Bounded(s, limit) && (a.Commit? || a.Rollback?) && CanTransact(s, a.i, a.tenant)
    ensures ChargedOnce(Step(s, a).books)
    ensures forall k :: At(Step(s, a).books.charged, k) <= limit(k)
  {
    var items := s.flushes[a.i].items;
    var xs := Share(items, a.tenant);
    var n := if a.Rollback? then Least(a.dispatched, |xs|) else |xs|;
    assert xs[..|xs|] == xs;
    forall k ensures At(xs[..n], k) <= limit(k) {
      BatchWithinFlush(items, a.tenant, n, k);
    }
    BatchBounded(s.books, xs[..n], a.up, limit);
  }

  lemma ActiveBounded(s: System, a: Action, limit: Key -> nat)
    requires forall k :: At(s.active, k) <= limit(k)
    ensures forall k :: At(Step(s, a).active, k) <= limit(k) + Counted(a, k)
  {
    forall k ensures At(Step(s, a).active, k) <= limit(k) + Counted(a, k) {
      if a.Increment? && Accepts(a.key, a.n) {
        BumpAdds(s.active, a.key, a.n, k);
      }
    }
  }

  lemma FlushesBounded(s: System, a: Action, limit: Key -> nat)
    requires forall k :: At(s.active, k) <= limit(k)
    requires forall i, k :: 0 <= i < |s.flushes| ==> At(s.flushes[i].items, k) <= limit(k)
    ensures forall i, k :: 0 <= i < |Step(s, a).flushes| ==> At(Step(s, a).flushes[i].items, k) <= limit(k)
  {
    FlushesPersist(s, a);
    forall i, k | 0 <= i < |Step(s, a).flushes| ensures At(Step(s, a).flushes[i].items, k) <= limit(k) {
      assert i < |s.flushes| ==> Step(s, a).flushes[i].items == s.flushes[i].items;
    }
  }

  lemma ChargesBounded(s: System, a: Action, limit: Key -> nat)
    requires Bounded(s, limit)
    ensures ChargedOnce(Step(s, a).books)
    ensures forall k :: At(Step(s, a).books.charged, k) <= limit(k)
  {
    if a.Commit? || a.Rollback? {
      if CanTransact(s, a.i, a.tenant) {
        TransactBounded(s, a, limit);
      }
    } else {
      OtherStepsKeepBooks(s, a);
    }
  }

  lemma StepBounded(s: System, a: Action, limit: Key -> nat, limit': Key -> nat)
    requires Bounded(s, limit) && forall k :: limit(k) + Counted(a, k) <= limit'(k)
    ensures Bounded(Step(s, a), limit')
  {
    ActiveBounded(s, a, limit);
    FlushesBounded(s, a, limit);
    ChargesBounded(s, a, limit);
    var t := Step(s, a);
    forall k ensures At(t.books.charged, k) <= limit'(k) && At(t.active, k) <= limit'(k) {
      assert limit(k) + Counted(a, k) <= limit'(k);
    }
    forall i, k | 0 <= i < |t.flushes| ensures At(t.flushes[i].items, k) <= limit'(k) {
      assert limit(k) + Counted(a, k) <= limit'(k);
    }
  }

  lemma {:induction false} RunBounded(actions: seq<Action>)
    ensures Bounded(Run(actions), k => Incremented(actions, k))
  {
    if actions != [] {
      var init := actions[..|actions| - 1];
      RunBounded(init);
      StepBounded(Run(init), actions[|actions| - 1], k => Incremented(init, k), k => Incremented(actions, k));
    }
  }

  lemma {:induction false} CountedMeansIncremented(actions: seq<Action>, k: Key)
    requires Incremented(actions, k) > 0
    ensures exists i :: 0 <= i < |actions| && actions[i].Increment? && actions[i].key == k && Accepts(k, actions[i].n)
  {
    var init, last := actions[..|actions| - 1], actions[|actions| - 1];
    if Counted(last, k) > 0 {
      assert actions[|actions| - 1].key == k;
    } else {
      CountedMeansIncremented(init, k);
      var i :| 0 <= i < |init| && init[i].Increment? && init[i].key == k && Accepts(k, init[i].n);
      assert actions[i].key == k;
    }
  }
}
