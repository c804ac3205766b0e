/**
 Keyed one-shot entries with an expiry: the in-process dicts of the authorization
 server, which sweep when they store, and the Redis keys, which need no sweep.
 */
module ExpiringStore {
  import opened Wrappers

  datatype Entry<V> = Entry(value: V, expiresAt: int)

  type Store<V> = map<string, Entry<V>>

  function Sweep<V>(s: Store<V>, now: int): Store<V> {
    map k | k in s && s[k].expiresAt > now :: s[k]
  }

  /** `_store_put` stamps the entry with one clock reading and sweeps with a later one. */
  function Put<V>(s: Store<V>, key: string, v: V, ttl: int, stamped: int, swept: int): Store<V> {
    Sweep(s, swept)[key := Entry(v, stamped + ttl)]
  }

  /** What taking the key answers. */
  function Peek<V>(s: Store<V>, key: string, now: int): Option<V> {
    if key in s && s[key].expiresAt > now then Some(s[key].value) else None
  }

  /** `_store_pop`, and GETDEL: the entry goes whether or not it is still good. */
  function Pop<V>(s: Store<V>, key: string, now: int): (Option<V>, Store<V>) {
    (Peek(s, key, now), s - {key})
  }

  datatype Op<V> = PutOp(key: string, value: V, ttl: int, stamped: int, swept: int) | PopOp(key: string, at: int)

  function Run<V>(ops: seq<Op<V>>, sweeping: bool): Store<V> {
    if ops == [] then map[]
    else
      var s := Run(ops[..|ops| - 1], sweeping);
      match ops[|ops| - 1]
      case PutOp(key, v, ttl, stamped, swept) =>
        if sweeping then Put(s, key, v, ttl, stamped, swept) else s[key := Entry(v, stamped + ttl)]
      case PopOp(key, at) => Pop(s, key, at).1
  }

  function Start<V>(op: Op<V>): int {
    match op case PutOp(_, _, _, stamped, _) => stamped case PopOp(_, at) => at
  }

  function End<V>(op: Op<V>): int {
    match op case PutOp(_, _, _, _, swept) => swept case PopOp(_, at) => at
  }

  /** The clock never went back, and reads no later than `now`. */
  predicate InOrder<V>(ops: seq<Op<V>>, now: int) {
    ops == [] ||
    (var last := ops[|ops| - 1];
     Start(last) <= End(last) <= now && InOrder(ops[..|ops| - 1], Start(last)))
  }

  /** The answer read off the history alone: the key's last operation was a put that is
      still good. */
  function Live<V>(ops: seq<Op<V>>, key: string, now: int): Option<V> {
    if ops == [] then None
    else
      match ops[|ops| - 1]
      case PutOp(k, v, ttl, stamped, _) =>
        if k == key then (if stamped + ttl > now then Some(v) else None) else Live(ops[..|ops| - 1], key, now)
      case PopOp(k, _) => if k == key then None else Live(ops[..|ops| - 1], key, now)
  }

  lemma {:induction false} LaterIsInOrder<V>(ops: seq<Op<V>>, now: int, later: int)
    requires InOrder(ops, now) && now <= later
    ensures InOrder(ops, later)
  {
  }

  /** Every answer of either store, after any run, is the one the history dictates: an
      entry is taken at most once, never after its expiry, and never lost before it. */
  lemma {:induction false} AnswersFromHistory<V>(ops: seq<Op<V>>, sweeping: bool, key: string, now: int)
    requires InOrder(ops, now)
    ensures Peek(Run(ops, sweeping), key, now) == Live(ops, key, now)
  {
    if ops != [] {
      var init := ops[..|ops| - 1];
      LaterIsInOrder(init, Start(ops[|ops| - 1]), now);
      AnswersFromHistory(init, sweeping, key, now);
    }
  }

  /** The sweep never changes a later answer. */
  lemma SweepIsInvisible<V>(ops: seq<Op<V>>, key: string, now: int)
    requires InOrder(ops, now)
    ensures Peek(Run(ops, true), key, now) == Peek(Run(ops, false), key, now)
  {
    AnswersFromHistory(ops, true, key, now);
    AnswersFromHistory(ops, false, key, now);
  }

  lemma SweepRemoves<V>(s: Store<V>, now: int)
    ensures Sweep(s, now) == s - (set k | k in s && s[k].expiresAt <= now)
  {
    var left := s - (set k | k in s && s[k].expiresAt <= now);
    assert forall k :: k in left <==> k in Sweep(s, now);
  }

  class MemoryStore<V> {
    var entries: Store<V>

    constructor ()
      ensures entries == map[]
    {
      entries := map[];
    }

    /** `_store_put` */
    method StorePut(key: string, v: V, ttl: int, stamped: int, swept: int)
      modifies this
      ensures entries == Put(old(entries), key, v, ttl, stamped, swept)
      ensures forall k :: k in entries && k != key ==>
                k in old(entries) && entries[k] == old(entries)[k] && entries[k].expiresAt > swept
    {
      var expired := set k | k in entries && entries[k].expiresAt <= swept;
      ghost var all := expired;
      while expired != {}
        invariant expired <= all
        invariant entries == old(entries) - (all - expired)
        decreases |expired|
      {
        var k :| k in expired;
        expired := expired - {k};
        entries := entries - {k};
      }
      assert all - expired == all;
      SweepRemoves(old(entries), swept);
      entries := entries[key := Entry(v, stamped + ttl)];
    }

    /** `_store_pop` */
    method StorePop(key: string, now: int) returns (v: Option<V>)
      modifies this
      ensures (v, entries) == Pop(old(entries), key, now)
    {
      if key !in entries {
        assert entries == entries - {key};
        return None;
      }
      var entry := entries[key];
      entries := entries - {key};
      if entry.expiresAt <= now {
        return None;
      }
      return Some(entry.value);
    }
  }
}
