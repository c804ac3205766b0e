/**
 Ingest metering: counters in one Redis hash, renamed away by each flush, committed
 tenant by tenant to `usage_records` and billed in the same transaction.
 */
module Metering {
  import opened Wrappers
  import opened Fields
  import opened Billing

  // ---- Counters ----

  /** `increment`'s guards. */
  predicate Accepts(k: Key, n: int) {
    && k.tenant != "" && k.recordType != ""
    && UNIT_SEPARATOR !in k.tenant && UNIT_SEPARATOR !in k.recordType
    && n > 0
  }

  /** HINCRBY: an existing counter grows in place, a new one is added. */
  function Bump(items: seq<Item>, k: Key, n: nat): seq<Item> {
    if items == [] then [Item(k, n)]
    else
      var init, last := items[..|items| - 1], items[|items| - 1];
      if last.key == k then init + [Item(k, last.count + n)] else Bump(init, k, n) + [last]
  }

  /** The counters of the tenants chosen by `p`. */
  function Keep(items: seq<Item>, p: string -> bool): seq<Item> {
    if items == [] then []
    else
      var last := items[|items| - 1];
      var before := Keep(items[..|items| - 1], p);
      if p(last.key.tenant) then before + [last] else before
  }

  function Share(items: seq<Item>, tenant: string): seq<Item> {
    Keep(items, t => t == tenant)
  }

  function Get(usage: map<Key, nat>, k: Key): nat {
    if k in usage then usage[k] else 0
  }

  /** INSERT ... ON CONFLICT DO UPDATE, row by row. */
  function UpsertAll(usage: map<Key, nat>, xs: seq<Item>): map<Key, nat> {
    if xs == [] then usage
    else
      var before := UpsertAll(usage, xs[..|xs| - 1]);
      var x := xs[|xs| - 1];
      before[x.key := Get(before, x.key) + x.count]
  }

  ghost predicate Distinct(items: seq<Item>) {
    forall i, j :: 0 <= i < j < |items| ==> items[i].key != items[j].key
  }

  lemma {:induction false} BumpAdds(items: seq<Item>, k: Key, n: nat, l: Key)
    ensures At(Bump(items, k, n), l) == At(items, l) + if l == k then n else 0
  {
    if items != [] {
      var init, last := items[..|items| - 1], items[|items| - 1];
      if last.key == k {
        AtAppend(init, Item(k, last.count + n), l);
      } else {
        BumpAdds(init, k, n, l);
        AtAppend(Bump(init, k, n), last, l);
      }
    }
  }

  lemma {:induction false} BumpKeys(items: seq<Item>, k: Key, n: nat)
    requires Distinct(items)
    ensures Distinct(Bump(items, k, n)) && Bump(items, k, n) != []
    ensures forall i :: 0 <= i < |Bump(items, k, n)| ==>
              Bump(items, k, n)[i].key == k || exists j :: 0 <= j < |items| && items[j].key == Bump(items, k, n)[i].key
  {
    if items != [] && items[|items| - 1].key != k {
      BumpKeys(items[..|items| - 1], k, n);
    }
  }

  lemma {:induction false} KeepPart(items: seq<Item>, p: string -> bool, k: Key)
    ensures At(Keep(items, p), k) == if p(k.tenant) then At(items, k) else 0
  {
    if items != [] {
      KeepPart(items[..|items| - 1], p, k);
      if p(items[|items| - 1].key.tenant) {
        AtAppend(Keep(items[..|items| - 1], p), items[|items| - 1], k);
      }
    }
  }

  lemma {:induction false} KeepIsFrom(items: seq<Item>, p: string -> bool)
    ensures forall i :: 0 <= i < |Keep(items, p)| ==> Keep(items, p)[i] in items && p(Keep(items, p)[i].key.tenant)
    ensures Distinct(items) ==> Distinct(Keep(items, p))
  {
    if items != [] {
      KeepIsFrom(items[..|items| - 1], p);
    }
  }

  lemma {:induction false} UpsertAdds(usage: map<Key, nat>, xs: seq<Item>, k: Key)
    ensures Get(UpsertAll(usage, xs), k) == Get(usage, k) + At(xs, k)
  {
    if xs != [] {
      UpsertAdds(usage, xs[..|xs| - 1], k);
    }
  }

  // ---- The meter of one process ----

  datatype MeterError = ValueError

  /** A Redis hash field and its count. */
  datatype Counter = Counter(field: string, count: nat)

  predicate WellFormed(field: string) {
    Splits(field, UNIT_SEPARATOR) && Join(UNIT_SEPARATOR, Split(field, UNIT_SEPARATOR)) == field
  }

  ghost predicate AllWellFormed(hash: seq<Counter>) {
    forall i :: 0 <= i < |hash| ==> WellFormed(hash[i].field)
  }

  /** The bucket a field names; no field of the hash is malformed. */
  function KeyOf(field: string): Key {
    if Splits(field, UNIT_SEPARATOR) then Split(field, UNIT_SEPARATOR) else Key("", "", "")
  }

  function BumpField(hash: seq<Counter>, field: string, n: nat): seq<Counter> {
    if hash == [] then [Counter(field, n)]
    else
      var init, last := hash[..|hash| - 1], hash[|hash| - 1];
      if last.field == field then init + [Counter(field, last.count + n)] else BumpField(init, field, n) + [last]
  }

  /** What the hash says, when `name` reads its fields. */
  function Decode(hash: seq<Counter>, name: string -> Key): seq<Item> {
    if hash == [] then []
    else Decode(hash[..|hash| - 1], name) + [Item(name(hash[|hash| - 1].field), hash[|hash| - 1].count)]
  }

  lemma DecodeAppend(hash: seq<Counter>, c: Counter, name: string -> Key)
    ensures Decode(hash + [c], name) == Decode(hash, name) + [Item(name(c.field), c.count)]
  {
    assert (hash + [c])[..|hash|] == hash;
  }

  lemma {:induction false} DecodeAt(hash: seq<Counter>, name: string -> Key)
    ensures |Decode(hash, name)| == |hash|
    ensures forall i :: 0 <= i < |hash| ==> Decode(hash, name)[i] == Item(name(hash[i].field), hash[i].count)
  {
    if hash != [] {
      DecodeAt(hash[..|hash| - 1], name);
    }
  }

  lemma BumpLast(items: seq<Item>, last: Item, k: Key, n: nat)
    ensures Bump(items + [last], k, n)
         == if last.key == k then items + [Item(k, last.count + n)] else Bump(items, k, n) + [last]
  {
    assert (items + [last])[..|items|] == items;
  }

  lemma BumpFieldLast(hash: seq<Counter>, last: Counter, field: string, n: nat)
    ensures BumpField(hash + [last], field, n)
         == if last.field == field then hash + [Counter(field, last.count + n)] else BumpField(hash, field, n) + [last]
  {
    assert (hash + [last])[..|hash|] == hash;
  }

  lemma BumpFieldSame(init: seq<Counter>, last: Counter, n: nat, name: string -> Key)
    ensures Decode(BumpField(init + [last], last.field, n), name)
        == Bump(Decode(init + [last], name), name(last.field), n)
  {
    BumpFieldLast(init, last, last.field, n);
    DecodeAppend(init, Counter(last.field, last.count + n), name);
    DecodeAppend(init, last, name);
    BumpLast(Decode(init, name), Item(name(last.field), last.count), name(last.field), n);
  }

  lemma BumpFieldOther(init: seq<Counter>, last: Counter, field: string, n: nat, name: string -> Key)
    requires Decode(BumpField(init, field, n), name) == Bump(Decode(init, name), name(field), n)
    requires name(last.field) != name(field)
    ensures Decode(BumpField(init + [last], field, n), name) == Bump(Decode(init + [last], name), name(field), n)
  {
    BumpFieldLast(init, last, field, n);
    DecodeAppend(BumpField(init, field, n), last, name);
    DecodeAppend(init, last, name);
    BumpLast(Decode(init, name), Item(name(last.field), last.count), name(field), n);
  }

  /** Incrementing a field increments the bucket it names, and no other. */
  lemma {:induction false} BumpFieldDecodes(hash: seq<Counter>, field: string, n: nat, name: string -> Key)
    requires forall i :: 0 <= i < |hash| && name(hash[i].field) == name(field) ==> hash[i].field == field
    ensures Decode(BumpField(hash, field, n), name) == Bump(Decode(hash, name), name(field), n)
  {
    if hash == [] {
      assert Decode([Counter(field, n)], name) == [Item(name(field), n)];
    } else {
      var init, last := hash[..|hash| - 1], hash[|hash| - 1];
      assert init + [last] == hash;
      if last.field == field {
        BumpFieldSame(init, last, n, name);
      } else {
        BumpFieldDecodes(init, field, n, name);
        BumpFieldOther(init, last, field, n, name);
      }
    }
  }

  lemma {:induction false} BumpFieldFrom(hash: seq<Counter>, field: string, n: nat, p: string -> bool)
    requires p(field) && forall i :: 0 <= i < |hash| ==> p(hash[i].field)
    ensures forall i :: 0 <= i < |BumpField(hash, field, n)| ==> p(BumpField(hash, field, n)[i].field)
  {
    if hash != [] {
      BumpFieldFrom(hash[..|hash| - 1], field, n, p);
    }
  }

  lemma IncrementField(hash: seq<Counter>, k: Key, n: nat)
    requires AllWellFormed(hash) && UNIT_SEPARATOR !in k.tenant && UNIT_SEPARATOR !in k.recordType
    ensures var after := BumpField(hash, Join(UNIT_SEPARATOR, k), n);
            AllWellFormed(after) && Decode(after, KeyOf) == Bump(Decode(hash, KeyOf), k, n)
  {
    var field := Join(UNIT_SEPARATOR, k);
    SplitRoundTrip(UNIT_SEPARATOR, k);
    BumpFieldFrom(hash, field, n, WellFormed);
    forall i | 0 <= i < |hash| && KeyOf(hash[i].field) == KeyOf(field) ensures hash[i].field == field {
      assert WellFormed(hash[i].field);
    }
    BumpFieldDecodes(hash, field, n, KeyOf);
  }

  lemma KeepMore(items: seq<Item>, i: nat, p: string -> bool)
    requires i < |items|
    ensures Keep(items[..i + 1], p) == Keep(items[..i], p) + if p(items[i].key.tenant) then [items[i]] else []
  {
    assert items[..i + 1][..i] == items[..i];
  }

  ghost predicate Grouped(groups: map<string, seq<Item>>, items: seq<Item>) {
    forall t :: (t in groups <==> Share(items, t) != []) && (t in groups ==> groups[t] == Share(items, t))
  }

  function AddToGroup(groups: map<string, seq<Item>>, x: Item): map<string, seq<Item>> {
    groups[x.key.tenant := (if x.key.tenant in groups then groups[x.key.tenant] else []) + [x]]
  }

  lemma GroupedMore(groups: map<string, seq<Item>>, items: seq<Item>, i: nat)
    requires i < |items| && Grouped(groups, items[..i])
    ensures Grouped(AddToGroup(groups, items[i]), items[..i + 1])
  {
    forall t
      ensures Share(items[..i + 1], t) == Share(items[..i], t) + if items[i].key.tenant == t then [items[i]] else []
    {
      KeepMore(items, i, u => u == t);
    }
  }

  /** The grouping loop of `flush`: each tenant's counters, in order. */
  method GroupByTenant(entries: seq<Counter>) returns (byTenant: map<string, seq<Item>>)
    requires AllWellFormed(entries)
    ensures Grouped(byTenant, Decode(entries, KeyOf))
  {
    byTenant := map[];
    ghost var items := Decode(entries, KeyOf);
    DecodeAt(entries, KeyOf);
    for i := 0 to |entries|
      invariant Grouped(byTenant, items[..i])
    {
      GroupedMore(byTenant, items, i);
      assert WellFormed(entries[i].field);
      byTenant := AddToGroup(byTenant, Item(Split(entries[i].field, UNIT_SEPARATOR), entries[i].count));
    }
    assert items[..|entries|] == items;
  }

  ghost predicate UsageGrew(u0: map<Key, nat>, u1: map<Key, nat>, items: seq<Item>, done: set<string>) {
    forall k :: Get(u1, k) == Get(u0, k) + if k.tenant in done then At(items, k) else 0
  }

  ghost predicate BooksGrew(b0: Books, b1: Books, items: seq<Item>, done: set<string>, billed: string -> bool) {
    forall k ::
      Dispatched(b1, k) == Dispatched(b0, k) + if k.tenant in done && billed(k.tenant) then At(items, k) else 0
  }

  lemma UsageGrows(u0: map<Key, nat>, u: map<Key, nat>, items: seq<Item>, done: set<string>, tenant: string)
    requires UsageGrew(u0, u, items, done) && tenant !in done
    ensures UsageGrew(u0, UpsertAll(u, Share(items, tenant)), items, done + {tenant})
  {
    forall k: Key ensures Get(UpsertAll(u, Share(items, tenant)), k)
                          == Get(u, k) + if k.tenant == tenant then At(items, k) else 0
    {
      UpsertAdds(u, Share(items, tenant), k);
      KeepPart(items, t => t == tenant, k);
    }
  }

  lemma BooksGrow(b0: Books, b: Books, items: seq<Item>, done: set<string>, tenant: string, billed: string -> bool,
                  up: Key -> bool)
    requires BooksGrew(b0, b, items, done, billed) && tenant !in done
    ensures var after := if billed(tenant) then DispatchAll(b, Share(items, tenant), up) else b;
            BooksGrew(b0, after, items, done + {tenant}, billed)
  {
    forall k: Key ensures Dispatched(DispatchAll(b, Share(items, tenant), up), k)
                          == Dispatched(b, k) + if k.tenant == tenant then At(items, k) else 0
    {
      DispatchAllAccounts(b, Share(items, tenant), up, k);
      KeepPart(items, t => t == tenant, k);
    }
  }

  lemma NothingLeft(items: seq<Item>, groups: map<string, seq<Item>>, k: Key)
    requires Grouped(groups, items) && k.tenant !in groups
    ensures At(items, k) == 0
  {
    KeepPart(items, t => t == k.tenant, k);
  }

  class Meter {
    var active: seq<Counter>
    var usage: map<Key, nat>
    const biller: Biller

    ghost predicate Valid()
      reads this
    {
      AllWellFormed(active)
    }

    ghost function Items(): seq<Item>
      reads this
    {
      Decode(active, KeyOf)
    }

    constructor (biller: Biller)
      ensures Valid() && Items() == [] && usage == map[] && this.biller == biller
    {
      active, usage := [], map[];
      this.biller := biller;
    }

    /** `increment` */
    method Increment(k: Key, n: int) returns (r: Result<(), MeterError>)
      requires Valid()
      modifies this`active
      ensures Valid()
      ensures r.Success? <==>
              && k.tenant != "" && k.recordType != "" && n >= 1
              && UNIT_SEPARATOR !in k.tenant && UNIT_SEPARATOR !in k.recordType
      ensures forall l :: At(Items(), l) == At(old(Items()), l) + if r.Success? && l == k then n else 0
      ensures Items() == if Accepts(k, n) then Bump(old(Items()), k, n) else old(Items())
    {
      if k.tenant == "" || k.recordType == "" {
        return Failure(ValueError);
      }
      if UNIT_SEPARATOR in k.tenant || UNIT_SEPARATOR in k.recordType {
        return Failure(ValueError);
      }
      if n <= 0 {
        return Failure(ValueError);
      }
      forall l ensures At(Bump(Items(), k, n), l) == At(Items(), l) + if l == k then n else 0 {
        BumpAdds(Items(), k, n, l);
      }
      IncrementField(active, k, n);
      active := BumpField(active, Join(UNIT_SEPARATOR, k), n);
      return Success(());
    }

    /** `_upsert_usage`, when the transaction commits. */
    method UpsertUsage(xs: seq<Item>, billed: bool, dispatcher: bool, up: Key -> bool)
      modifies this`usage, biller
      ensures usage == UpsertAll(old(usage), xs)
      ensures biller.State()
           == if billed && dispatcher then DispatchAll(old(biller.State()), xs, up) else old(biller.State())
    {
      if xs == [] {
        return;
      }
      for i := 0 to |xs|
        invariant usage == UpsertAll(old(usage), xs[..i])
        invariant biller.State() == old(biller.State())
      {
        assert xs[..i + 1][..i] == xs[..i];
        usage := usage[xs[i].key := Get(usage, xs[i].key) + xs[i].count];
      }
      assert xs[..|xs|] == xs;
      biller.ReportUsage(xs, billed, dispatcher, up);
    }

    method CommitOne(byTenant: map<string, seq<Item>>, tenant: string, billed: string -> bool, up: Key -> bool,
                     ghost items: seq<Item>, ghost done: set<string>, ghost u0: map<Key, nat>, ghost b0: Books)
      returns (n: nat)
      requires Grouped(byTenant, items) && tenant in byTenant && tenant !in done
      requires UsageGrew(u0, usage, items, done) && BooksGrew(b0, biller.State(), items, done, billed)
      modifies this`usage, biller
      ensures UsageGrew(u0, usage, items, done + {tenant})
      ensures BooksGrew(b0, biller.State(), items, done + {tenant}, billed)
      ensures CountOf(items, done + {tenant}) == CountOf(items, done) + n
    {
      UsageGrows(u0, usage, items, done, tenant);
      BooksGrow(b0, biller.State(), items, done, tenant, billed, up);
      CountOneMore(items, done, tenant);
      UpsertUsage(byTenant[tenant], billed(tenant), true, up);
      return |byTenant[tenant]|;
    }

    /** The commit loop of `flush`: each tenant's batch once. */
    method CommitGroups(byTenant: map<string, seq<Item>>, ghost items: seq<Item>, billed: string -> bool,
                        up: Key -> bool)
      returns (processed: nat)
      requires Grouped(byTenant, items)
      modifies this`usage, biller
      ensures processed == |items|
      ensures UsageGrew(old(usage), usage, items, byTenant.Keys)
      ensures BooksGrew(old(biller.State()), biller.State(), items, byTenant.Keys, billed)
    {
      processed := 0;
      var left := byTenant.Keys;
      ghost var done: set<string> := {};
      ghost var u0, b0 := usage, biller.State();
      CountNone(items);
      while left != {}
        invariant left <= byTenant.Keys && done == byTenant.Keys - left
        invariant UsageGrew(u0, usage, items, done)
        invariant BooksGrew(b0, biller.State(), items, done, billed)
        invariant processed == CountOf(items, done)
        decreases |left|
      {
        var tenant :| tenant in left;
        var n := CommitOne(byTenant, tenant, billed, up, items, done, u0, b0);
        processed := processed + n;
        assert byTenant.Keys - (left - {tenant}) == done + {tenant};
        left := left - {tenant};
        done := done + {tenant};
      }
      assert done == byTenant.Keys;
      AllGrouped(byTenant, items);
      CountAll(items, done);
    }

    /** `flush`, uninterrupted: every counter reaches `usage_records`, and each tenant with a
        billing row has the same quantities dispatched.  `billed` is false for every tenant
        when no dispatcher is configured. */
    method Flush(billed: string -> bool, up: Key -> bool) returns (processed: nat)
      requires Valid()
      modifies this, biller
      ensures Valid() && Items() == []
      ensures processed == |old(active)|
      ensures forall k :: Get(usage, k) == old(Get(usage, k)) + At(old(Items()), k)
      ensures forall k :: Dispatched(biller.State(), k)
                       == old(Dispatched(biller.State(), k)) + if billed(k.tenant) then At(old(Items()), k) else 0
    {
      if active == [] {
        return 0;
      }
      ghost var items := Items();
      DecodeAt(active, KeyOf);
      var entries := active;
      active := [];
      var byTenant := GroupByTenant(entries);
      processed := CommitGroups(byTenant, items, billed, up);
      forall k: Key ensures k.tenant !in byTenant.Keys ==> At(items, k) == 0 {
        if k.tenant !in byTenant {
          NothingLeft(items, byTenant, k);
        }
      }
    }
  }

  lemma {:induction false} CountNone(items: seq<Item>)
    ensures CountOf(items, {}) == 0
  {
    if items != [] {
      CountNone(items[..|items| - 1]);
    }
  }

  /** How many counters belong to these tenants. */
  function CountOf(items: seq<Item>, tenants: set<string>): nat {
    if items == [] then 0
    else CountOf(items[..|items| - 1], tenants) + if items[|items| - 1].key.tenant in tenants then 1 else 0
  }

  lemma {:induction false} CountOneMore(items: seq<Item>, done: set<string>, tenant: string)
    requires tenant !in done
    ensures CountOf(items, done + {tenant}) == CountOf(items, done) + |Share(items, tenant)|
  {
    if items != [] {
      CountOneMore(items[..|items| - 1], done, tenant);
    }
  }

  lemma {:induction false} CountAll(items: seq<Item>, done: set<string>)
    requires forall i :: 0 <= i < |items| ==> items[i].key.tenant in done
    ensures CountOf(items, done) == |items|
  {
    if items != [] {
      CountAll(items[..|items| - 1], done);
    }
  }

  lemma {:induction false} OwnShare(items: seq<Item>, i: nat)
    requires i < |items|
    ensures Share(items, items[i].key.tenant) != []
  {
    if i < |items| - 1 {
      OwnShare(items[..|items| - 1], i);
    }
  }

  lemma AllGrouped(groups: map<string, seq<Item>>, items: seq<Item>)
    requires Grouped(groups, items)
    ensures forall i :: 0 <= i < |items| ==> items[i].key.tenant in groups
  {
    forall i | 0 <= i < |items| ensures items[i].key.tenant in groups {
      OwnShare(items, i);
    }
  }
}
