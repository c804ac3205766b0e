/**
 The usage endpoint: one priced page with its cursor, the totals of the whole set, and a
 total cost that is priced bucket by bucket rather than row by row.
 */
module UsageList {
  import opened Wrappers
  import opened Money
  import opened Ordering
  import opened Paging
  import opened UsagePaging
  import opened Spend

  /** `_price_usage_row`: by vendor, model, tokens and time; None for an unknown model. */
  type Pricer = (Vendor, Option<string>, Tokens, int) -> Option<real>

  function RowPrice(price: Pricer, x: Row): Option<real> {
    price(x.vendor, x.model, x.tokens, x.at)
  }

  // ---- GROUP BY source_api, model ----

  datatype Bucket = Bucket(vendor: Vendor, model: Option<string>)

  function BucketOf(x: Row): Bucket {
    Bucket(x.vendor, x.model)
  }

  function In(b: Bucket): Row -> bool {
    (x: Row) => BucketOf(x) == b
  }

  /** The buckets of the rows, each once. */
  function Buckets(xs: seq<Row>): (bs: seq<Bucket>)
    ensures forall i, j :: 0 <= i < j < |bs| ==> bs[i] != bs[j]
    ensures forall b :: b in bs <==> exists i :: 0 <= i < |xs| && BucketOf(xs[i]) == b
  {
    if xs == [] then []
    else
      var init, last := xs[..|xs| - 1], xs[|xs| - 1];
      var bs := Buckets(init);
      assert forall i :: 0 <= i < |init| ==> init[i] == xs[i];
      if BucketOf(last) in bs then bs else bs + [BucketOf(last)]
  }

  /** Summed tokens, priced at the time of the bucket's earliest row. */
  function BucketPrice(price: Pricer, xs: seq<Row>, b: Bucket): Option<real> {
    var rows := Keep(xs, In(b));
    if rows == [] then None else price(b.vendor, b.model, Total(rows), MinAt(rows))
  }

  /** The loop over the cost buckets: what they cost, and how many rows have no price. */
  datatype Costs = Costs(cost: real, unpriced: nat, any: bool)

  function AddBucket(price: Pricer, xs: seq<Row>, c: Costs, b: Bucket): Costs {
    match BucketPrice(price, xs, b)
    case None => c.(unpriced := c.unpriced + |Keep(xs, In(b))|)
    case Some(usd) => Costs(c.cost + usd, c.unpriced, true)
  }

  function CostOf(price: Pricer, xs: seq<Row>, bs: seq<Bucket>): Costs {
    if bs == [] then Costs(0.0, 0, false) else AddBucket(price, xs, CostOf(price, xs, bs[..|bs| - 1]), bs[|bs| - 1])
  }

  function Plus(c: Costs, d: Costs): Costs {
    Costs(c.cost + d.cost, c.unpriced + d.unpriced, c.any || d.any)
  }

  lemma PlusLaws(c: Costs, d: Costs, e: Costs)
    ensures Plus(Plus(c, d), e) == Plus(c, Plus(d, e)) && Plus(c, d) == Plus(d, c)
    ensures Plus(c, Costs(0.0, 0, false)) == c
  {
  }

  function RowCost(price: Pricer, x: Row): Costs {
    match RowPrice(price, x) case None => Costs(0.0, 1, false) case Some(usd) => Costs(usd, 0, true)
  }

  /** What the rows cost one by one, and how many have no price. */
  function RowCosts(price: Pricer, xs: seq<Row>): Costs {
    if xs == [] then Costs(0.0, 0, false) else Plus(RowCosts(price, xs[..|xs| - 1]), RowCost(price, xs[|xs| - 1]))
  }

  // ---- Rate cards ----

  /** Rates by vendor, model and instant. */
  type Card = (Vendor, string, int) -> Option<Rates>

  function RatesAt(card: Card, vendor: Vendor, model: Option<string>, at: int): Option<Rates> {
    if model.None? || model.value == "" then None else card(vendor, model.value, at)
  }

  function CostAt(rates: Option<Rates>, t: Tokens): Option<real> {
    match rates case None => None case Some(r) => Some(Cost(r, t))
  }

  function ByCard(card: Card): Pricer {
    (vendor: Vendor, model: Option<string>, t: Tokens, at: int) => CostAt(RatesAt(card, vendor, model, at), t)
  }

  /** The rates a vendor's rows can be charged: OpenAI rows never carry cache creation. */
  function Chargeable(vendor: Vendor, rates: Option<Rates>): Option<Rates> {
    match rates
    case None => None
    case Some(r) => Some(if vendor == OpenAi then r.(cacheCreation := 0.0) else r)
  }

  predicate InRange(q: Query, at: int) {
    q.since <= at / DAY <= q.until
  }

  /** No rate that a listed row could be charged changes within the range asked for. */
  ghost predicate RatesHold(card: Card, q: Query) {
    forall vendor, model, s, t ::
      model != "" && (q.model.Some? ==> q.model == Some(model)) && InRange(q, s) && InRange(q, t) ==>
        Chargeable(vendor, card(vendor, model, s)) == Chargeable(vendor, card(vendor, model, t))
  }

  /** What every listed row is like. */
  predicate Listed(q: Query, x: Row) {
    InRange(q, x.at) && (q.model.Some? ==> x.model == q.model) && (x.vendor == OpenAi ==> x.tokens.cacheCreation == 0)
  }

  ghost predicate AllListed(q: Query, xs: seq<Row>) {
    forall i :: 0 <= i < |xs| ==> Listed(q, xs[i])
  }

  lemma {:induction false} OpenAiCarriesNoCreation(records: seq<Record>, x: Row)
    requires x in AllRows(records) && x.vendor == OpenAi
    ensures x.tokens.cacheCreation == 0
  {
    if x !in Elements(records[0]) {
      OpenAiCarriesNoCreation(records[1..], x);
    }
  }

  lemma ListingIsListed(records: seq<Record>, q: Query)
    ensures AllListed(q, Expand(records, q))
  {
    var xs := Expand(records, q);
    forall i | 0 <= i < |xs| ensures Listed(q, xs[i]) {
      ExpandedRows(records, q, xs[i]);
      if xs[i].vendor == OpenAi {
        OpenAiCarriesNoCreation(records, xs[i]);
      }
    }
  }

  // ---- The buckets against the rows ----

  lemma RowCostsMore(price: Pricer, xs: seq<Row>, x: Row)
    ensures RowCosts(price, xs + [x]) == Plus(RowCosts(price, xs), RowCost(price, x))
  {
    assert (xs + [x])[..|xs|] == xs;
  }

  lemma {:induction false} TotalMore(xs: seq<Row>, x: Row)
    ensures Total(xs + [x]) == Add(Total(xs), x.tokens)
  {
    if xs == [] {
      assert xs + [x] == [x] && [x][1..] == [];
    } else {
      TotalMore(xs[1..], x);
      assert (xs + [x])[1..] == xs[1..] + [x];
    }
  }

  /** What so many rows cost together, at the same rates. */
  function AtRates(rates: Option<Rates>, t: Tokens, n: nat): Costs {
    match CostAt(rates, t) case None => Costs(0.0, n, false) case Some(c) => Costs(c, 0, n > 0)
  }

  lemma AtRatesMore(rates: Option<Rates>, t: Tokens, n: nat, u: Tokens)
    ensures AtRates(rates, Add(t, u), n + 1) == Plus(AtRates(rates, t, n), AtRates(rates, u, 1))
  {
    if rates.Some? {
      CostAdds(rates.value, t, u);
    }
  }

  lemma SameRatesMore(price: Pricer, rates: Option<Rates>, xs: seq<Row>, x: Row)
    requires RowCosts(price, xs) == AtRates(rates, Total(xs), |xs|)
    requires RowPrice(price, x) == CostAt(rates, x.tokens)
    ensures RowCosts(price, xs + [x]) == AtRates(rates, Total(xs + [x]), |xs| + 1)
  {
    TotalMore(xs, x);
    AtRatesMore(rates, Total(xs), |xs|, x.tokens);
    RowCostsMore(price, xs, x);
  }

  lemma NoRows(rates: Option<Rates>)
    ensures AtRates(rates, Tokens(0, 0, 0, 0, 0), 0) == Costs(0.0, 0, false)
  {
    if rates.Some? {
      Nothing(rates.value);
    }
  }

  /** Rows that share their rates cost what their summed tokens cost. */
  lemma {:induction false} SameRates(price: Pricer, rates: Option<Rates>, xs: seq<Row>)
    requires forall i :: 0 <= i < |xs| ==> RowPrice(price, xs[i]) == CostAt(rates, xs[i].tokens)
    ensures RowCosts(price, xs) == AtRates(rates, Total(xs), |xs|)
  {
    if xs == [] {
      NoRows(rates);
    } else {
      SameRates(price, rates, xs[..|xs| - 1]);
      SameRatesMore(price, rates, xs[..|xs| - 1], xs[|xs| - 1]);
      assert xs[..|xs| - 1] + [xs[|xs| - 1]] == xs;
    }
  }

  lemma NoCreationNoCharge(r: Rates, t: Tokens)
    requires t.cacheCreation == 0
    ensures Cost(r.(cacheCreation := 0.0), t) == Cost(r, t)
  {
    Share(0, 0, r.cacheCreation);
    Share(0, 0, 0.0);
  }

  lemma ChargeableDecides(vendor: Vendor, r: Option<Rates>, s: Option<Rates>, t: Tokens)
    requires Chargeable(vendor, r) == Chargeable(vendor, s) && (vendor == OpenAi ==> t.cacheCreation == 0)
    ensures CostAt(r, t) == CostAt(s, t)
  {
    if vendor == OpenAi && r.Some? {
      NoCreationNoCharge(r.value, t);
      NoCreationNoCharge(s.value, t);
    }
  }

  /** A bucket's price is the price of its rows when no rate changes among them. */
  lemma BucketPricesLikeItsRows(card: Card, q: Query, xs: seq<Row>, b: Bucket)
    requires RatesHold(card, q) && AllListed(q, xs) && Keep(xs, In(b)) != []
    ensures var rows := Keep(xs, In(b));
            RowCosts(ByCard(card), rows) == AddBucket(ByCard(card), xs, Costs(0.0, 0, false), b)
  {
    var rows := Keep(xs, In(b));
    var k :| 0 <= k < |rows| && MinAt(rows) == rows[k].at;
    var rates := RatesAt(card, b.vendor, b.model, rows[k].at);
    KeepIn(xs, In(b), k);
    forall i | 0 <= i < |rows|
      ensures BucketOf(rows[i]) == b && RowPrice(ByCard(card), rows[i]) == CostAt(rates, rows[i].tokens)
    {
      KeepIn(xs, In(b), i);
      ChargeableDecides(b.vendor, RatesAt(card, b.vendor, b.model, rows[i].at), rates, rows[i].tokens);
    }
    SameRates(ByCard(card), rates, rows);
  }

  function Among(bs: seq<Bucket>): Row -> bool {
    (x: Row) => BucketOf(x) in bs
  }

  lemma {:induction false} KeepMore(xs: seq<Row>, x: Row, p: Row -> bool)
    ensures Keep(xs + [x], p) == if p(x) then Keep(xs, p) + [x] else Keep(xs, p)
  {
    if xs == [] {
      assert xs + [x] == [x] && [x][1..] == [];
      assert Keep([], p) == [];
    } else {
      KeepMore(xs[1..], x, p);
      assert (xs + [x])[1..] == xs[1..] + [x];
    }
  }

  lemma KeptCostsMore(price: Pricer, xs: seq<Row>, x: Row, p: Row -> bool)
    ensures RowCosts(price, Keep(xs + [x], p))
         == if p(x) then Plus(RowCosts(price, Keep(xs, p)), RowCost(price, x)) else RowCosts(price, Keep(xs, p))
  {
    KeepMore(xs, x, p);
    RowCostsMore(price, Keep(xs, p), x);
  }

  lemma PlusTwice(c: Costs, d: Costs, e: Costs)
    ensures Plus(Plus(c, d), e) == Plus(Plus(c, e), d) == Plus(c, Plus(d, e))
  {
    PlusLaws(c, d, e);
    PlusLaws(d, e, c);
    PlusLaws(c, e, d);
  }

  /** Two disjoint conditions part the costs of a third. */
  lemma {:induction false} CostsPart(price: Pricer, xs: seq<Row>, p: Row -> bool, q: Row -> bool, r: Row -> bool)
    requires forall x :: Parts(p, q, r, x)
    ensures RowCosts(price, Keep(xs, p)) == Plus(RowCosts(price, Keep(xs, q)), RowCosts(price, Keep(xs, r)))
  {
    if xs != [] {
      var init, last := xs[..|xs| - 1], xs[|xs| - 1];
      assert xs == init + [last];
      CostsPart(price, init, p, q, r);
      KeptCostsMore(price, init, last, p);
      KeptCostsMore(price, init, last, q);
      KeptCostsMore(price, init, last, r);
      assert Parts(p, q, r, last);
      PlusTwice(RowCosts(price, Keep(init, q)), RowCosts(price, Keep(init, r)), RowCost(price, last));
    }
  }

  lemma AddBucketAdds(price: Pricer, xs: seq<Row>, c: Costs, b: Bucket)
    ensures AddBucket(price, xs, c, b) == Plus(c, AddBucket(price, xs, Costs(0.0, 0, false), b))
  {
  }

  lemma OneMoreBucket(bs: seq<Bucket>, b: Bucket)
    requires b !in bs
    ensures forall x :: Parts(Among(bs + [b]), Among(bs), In(b), x)
  {
  }

  lemma {:induction false} BucketsCostLikeRows(card: Card, q: Query, xs: seq<Row>, bs: seq<Bucket>)
    requires RatesHold(card, q) && AllListed(q, xs)
    requires forall i, j :: 0 <= i < j < |bs| ==> bs[i] != bs[j]
    requires forall i :: 0 <= i < |bs| ==> Keep(xs, In(bs[i])) != []
    ensures CostOf(ByCard(card), xs, bs) == RowCosts(ByCard(card), Keep(xs, Among(bs)))
  {
    var price := ByCard(card);
    if bs == [] {
      NothingKept(xs, Among(bs));
    } else {
      var init, b := bs[..|bs| - 1], bs[|bs| - 1];
      calc {
        CostOf(price, xs, bs);
        AddBucket(price, xs, CostOf(price, xs, init), b);
        { AddBucketAdds(price, xs, CostOf(price, xs, init), b); }
        Plus(CostOf(price, xs, init), AddBucket(price, xs, Costs(0.0, 0, false), b));
        { BucketsCostLikeRows(card, q, xs, init); BucketPricesLikeItsRows(card, q, xs, b); }
        Plus(RowCosts(price, Keep(xs, Among(init))), RowCosts(price, Keep(xs, In(b))));
        { assert bs == init + [b]; OneMoreBucket(init, b); CostsPart(price, xs, Among(bs), Among(init), In(b)); }
        RowCosts(price, Keep(xs, Among(bs)));
      }
    }
  }

  lemma {:induction false} NothingKept(xs: seq<Row>, p: Row -> bool)
    requires forall x :: !p(x)
    ensures Keep(xs, p) == []
  {
    if xs != [] {
      NothingKept(xs[1..], p);
    }
  }

  /** The total agrees with the rows: the same cost, and as many rows without one. */
  ghost predicate Agree(card: Card, xs: seq<Row>) {
    CostOf(ByCard(card), xs, Buckets(xs)) == RowCosts(ByCard(card), xs)
  }

  /** While no rate changes within the range, the total is what the rows cost. */
  lemma TotalIsSumOfRows(card: Card, q: Query, xs: seq<Row>)
    requires RatesHold(card, q) && AllListed(q, xs)
    ensures Agree(card, xs)
  {
    var bs := Buckets(xs);
    forall i | 0 <= i < |bs| ensures Keep(xs, In(bs[i])) != [] {
      assert bs[i] in bs;
      var k :| 0 <= k < |xs| && BucketOf(xs[k]) == bs[i];
      KeepHolds(xs, In(bs[i]), xs[k]);
    }
    BucketsCostLikeRows(card, q, xs, bs);
    forall i | 0 <= i < |xs| ensures Among(bs)(xs[i]) {
    }
    KeepAll(xs, Among(bs));
  }

  // ---- When a rate changes ----

  lemma TwoRowsInBucket(x: Row, y: Row)
    requires BucketOf(x) == BucketOf(y)
    ensures Buckets([x, y]) == [BucketOf(x)] && Keep([x, y], In(BucketOf(x))) == [x, y]
  {
    var xs := [x, y];
    assert xs[..1] == [x] && [x][..0] == [];
    assert Buckets([]) == [] && Buckets([x]) == [BucketOf(x)];
    KeepAll(xs, In(BucketOf(x)));
  }

  lemma TwoRowCosts(price: Pricer, x: Row, y: Row)
    ensures RowCosts(price, [x, y]) == Plus(RowCost(price, x), RowCost(price, y))
  {
    assert [] + [x] == [x] && [x] + [y] == [x, y];
    RowCostsMore(price, [], x);
    RowCostsMore(price, [x], y);
  }

  lemma OneBucket(price: Pricer, xs: seq<Row>, b: Bucket)
    requires Buckets(xs) == [b] && Keep(xs, In(b)) == xs && xs != []
    ensures CostOf(price, xs, Buckets(xs))
         == (match price(b.vendor, b.model, Total(xs), MinAt(xs))
             case None => Costs(0.0, |xs|, false)
             case Some(c) => Costs(c, 0, true))
  {
    assert [b][..0] == [];
    assert CostOf(price, xs, [b]) == AddBucket(price, xs, Costs(0.0, 0, false), b);
  }

  /** Both rows at the first rates are not each at its own. */
  lemma TwoRates(r: Option<Rates>, s: Option<Rates>, t: Tokens)
    requires r != s && (r.Some? && s.Some? ==> Cost(r.value, t) != Cost(s.value, t))
    ensures AtRates(r, Add(t, t), 2) != Plus(AtRates(r, t, 1), AtRates(s, t, 1))
  {
    AtRatesMore(r, t, 1, t);
  }

  lemma TwoRowTotals(card: Card, x: Row, y: Row)
    requires BucketOf(x) == BucketOf(y) && x.tokens == y.tokens && x.at <= y.at
    ensures var r, s := RatesAt(card, x.vendor, x.model, x.at), RatesAt(card, x.vendor, x.model, y.at);
            && CostOf(ByCard(card), [x, y], Buckets([x, y])) == AtRates(r, Add(x.tokens, x.tokens), 2)
            && RowCosts(ByCard(card), [x, y]) == Plus(AtRates(r, x.tokens, 1), AtRates(s, x.tokens, 1))
  {
    TwoRowsInBucket(x, y);
    OneBucket(ByCard(card), [x, y], BucketOf(x));
    TwoRows(x, y);
    TwoRowCosts(ByCard(card), x, y);
  }

  /** Tokens a vendor's row can carry whose cost tells the rates apart. */
  function TokensApart(vendor: Vendor, r: Option<Rates>, s: Option<Rates>): (t: Tokens)
    requires Chargeable(vendor, r) != Chargeable(vendor, s)
    ensures r.Some? && s.Some? ==> Cost(r.value, t) != Cost(s.value, t)
    ensures t.webSearch == 0 && (vendor == OpenAi ==> t.cacheCreation == 0)
  {
    if r.None? || s.None? then Tokens(0, 0, 0, 0, 0)
    else
      var t := TellApart(Chargeable(vendor, r).value, Chargeable(vendor, s).value);
      ChargeableDecides(vendor, r, Chargeable(vendor, r), t);
      ChargeableDecides(vendor, s, Chargeable(vendor, s), t);
      t
  }

  lemma TwoRecordsExpand(q: Query, a: Record, b: Record, x: Row, y: Row)
    requires Elements(a) == [x] && Elements(b) == [y]
    requires InRange(q, x.at) && InRange(q, y.at) && x.workspaceId == y.workspaceId == q.workspaceId
    requires x.model.Some? && x.model == y.model && (q.model.Some? ==> x.model == q.model)
    ensures Expand([a, b], q) == [x, y]
  {
    TwoRecordRows(a, b, x, y);
    var p := (r: Row) => Wanted([a, b], q, r);
    assert q.since * DAY <= x.at < (q.until + 1) * DAY && q.since * DAY <= y.at < (q.until + 1) * DAY;
    KeepAll([x, y], p);
  }

  lemma TwoRowsDisagree(card: Card, x: Row, y: Row)
    requires BucketOf(x) == BucketOf(y) && x.tokens == y.tokens && x.at <= y.at
    requires var r, s := RatesAt(card, x.vendor, x.model, x.at), RatesAt(card, x.vendor, x.model, y.at);
             r != s && (r.Some? && s.Some? ==> Cost(r.value, x.tokens) != Cost(s.value, x.tokens))
    ensures !Agree(card, [x, y])
  {
    TwoRowTotals(card, x, y);
    TwoRates(RatesAt(card, x.vendor, x.model, x.at), RatesAt(card, x.vendor, x.model, y.at), x.tokens);
  }

  /** Two records on either side of a rate change: the total prices both at the earlier rate. */
  lemma RateChangeMissesTotal(card: Card, q: Query, vendor: Vendor, name: string, s: int, t: int)
    returns (records: seq<Record>)
    requires name != "" && (q.model.Some? ==> q.model == Some(name)) && InRange(q, s) && InRange(q, t) && s <= t
    requires Chargeable(vendor, card(vendor, name, s)) != Chargeable(vendor, card(vendor, name, t))
    ensures UniqueIds(records) && |records| == 2 && !Agree(card, Expand(records, q))
  {
    var model := Some(name);
    var tokens := TokensApart(vendor, RatesAt(card, vendor, model, s), RatesAt(card, vendor, model, t));
    var a := OneResult("a", s, vendor, q.workspaceId, model, tokens);
    var b := OneResult("b", t, vendor, q.workspaceId, model, tokens);
    var x := Row(s, "a", 1, vendor, q.workspaceId, None, model, tokens);
    var y := Row(t, "b", 1, vendor, q.workspaceId, None, model, tokens);
    records := [a, b];
    OneResultRow("a", s, vendor, q.workspaceId, model, tokens);
    OneResultRow("b", t, vendor, q.workspaceId, model, tokens);
    TwoRecordsExpand(q, a, b, x, y);
    TwoRowsDisagree(card, x, y);
  }

  /** The total cost equals the sum over the listed rows, and its rows without a cost are theirs,
      for all records, if and only if no chargeable rate changes within the range. */
  lemma TotalsMatchIffRatesHold(card: Card, q: Query)
    ensures (forall records :: UniqueIds(records) ==> Agree(card, Expand(records, q))) <==> RatesHold(card, q)
  {
    if RatesHold(card, q) {
      forall records | UniqueIds(records) ensures Agree(card, Expand(records, q)) {
        ListingIsListed(records, q);
        TotalIsSumOfRows(card, q, Expand(records, q));
      }
    } else {
      var vendor, model, s, t :| model != "" && (q.model.Some? ==> q.model == Some(model))
        && InRange(q, s) && InRange(q, t)
        && Chargeable(vendor, card(vendor, model, s)) != Chargeable(vendor, card(vendor, model, t));
      var records := RateChangeMissesTotal(card, q, vendor, model, if s <= t then s else t, if s <= t then t else s);
    }
  }

  // ---- Over a walk ----

  lemma {:induction false} RowCostsAppend(price: Pricer, xs: seq<Row>, ys: seq<Row>)
    ensures RowCosts(price, xs + ys) == Plus(RowCosts(price, xs), RowCosts(price, ys))
  {
    if ys == [] {
      assert xs + ys == xs;
      PlusLaws(RowCosts(price, xs), RowCosts(price, xs), RowCosts(price, xs));
    } else {
      var init, last := ys[..|ys| - 1], ys[|ys| - 1];
      calc {
        RowCosts(price, xs + ys);
        { assert xs + ys == (xs + init) + [last]; RowCostsMore(price, xs + init, last); }
        Plus(RowCosts(price, xs + init), RowCost(price, last));
        { RowCostsAppend(price, xs, init); }
        Plus(Plus(RowCosts(price, xs), RowCosts(price, init)), RowCost(price, last));
        { PlusLaws(RowCosts(price, xs), RowCosts(price, init), RowCost(price, last)); }
        Plus(RowCosts(price, xs), Plus(RowCosts(price, init), RowCost(price, last)));
        Plus(RowCosts(price, xs), RowCosts(price, ys));
      }
    }
  }

  lemma RowCostsMiddle(price: Pricer, a: seq<Row>, x: Row, b: seq<Row>)
    ensures RowCosts(price, (a + [x]) + b) == Plus(RowCosts(price, a + b), RowCost(price, x))
  {
    var c, r, d := RowCosts(price, a), RowCost(price, x), RowCosts(price, b);
    RowCostsAppend(price, a + [x], b);
    RowCostsMore(price, a, x);
    RowCostsAppend(price, a, b);
    PlusTwice(c, r, d);
  }

  lemma TakeOut(xs: seq<Row>, x: Row) returns (a: seq<Row>, b: seq<Row>)
    requires x in xs
    ensures xs == (a + [x]) + b && multiset(a + b) == multiset(xs) - multiset{x}
  {
    var k :| 0 <= k < |xs| && xs[k] == x;
    a, b := xs[..k], xs[k + 1..];
    assert xs == (a + [x]) + b;
  }

  /** The order of the rows does not matter. */
  lemma {:induction false} RowCostsPermute(price: Pricer, xs: seq<Row>, ys: seq<Row>)
    requires multiset(xs) == multiset(ys)
    ensures RowCosts(price, xs) == RowCosts(price, ys)
    decreases |xs|
  {
    assert |multiset(xs)| == |xs| && |multiset(ys)| == |ys|;
    if xs != [] {
      var init, last := xs[..|xs| - 1], xs[|xs| - 1];
      assert xs == init + [last];
      assert last in multiset(ys);
      var a, b := TakeOut(ys, last);
      assert multiset(init) == multiset(xs) - multiset{last};
      RowCostsPermute(price, init, a + b);
      RowCostsMiddle(price, a, last, b);
    }
  }

  /** `total_cost_usd`: rounded to cents, None when nothing was priced. */
  function TotalCost(c: Costs): Option<real> {
    if c.any then Some(Quantize(c.cost)) else None
  }

  /** As long as no rate changes within the range, the costs shown row by row over all pages of a
      walk add up, to within half a cent, to the total cost that every response carries, and the
      rows shown without a cost are as many as it says. */
  lemma PagesAddUpToTotalCost(py: Python, records: seq<Record>, q: Query, limits: nat -> nat, card: Card)
    requires Faithful(py) && UniqueIds(records) && Positive(limits) && RatesHold(card, q)
    requires Shrinks(Database(py, records, q), Key(py))
    ensures var shown := RowCosts(ByCard(card), Walk(Database(py, records, q), Key(py), None, limits, 0));
            var xs := Expand(records, q);
            var total := CostOf(ByCard(card), xs, Buckets(xs));
            && shown == total
            && (TotalCost(total).Some? <==> shown.any)
            && (shown.any ==> -0.005 <= TotalCost(total).value - shown.cost <= 0.005)
  {
    var xs := Expand(records, q);
    UsageWalkIsWhole(py, records, q, limits);
    RowCostsPermute(ByCard(card), Walk(Database(py, records, q), Key(py), None, limits, 0), xs);
    ListingIsListed(records, q);
    TotalIsSumOfRows(card, q, xs);
  }

  // ---- The endpoint ----

  datatype UsageRow = UsageRow(row: Row, cost: Option<real>)

  datatype Error = InvalidDateRange | InvalidCursor

  datatype Totals = Totals(tokens: Tokens, rowCount: nat, cost: Option<real>, rowsWithoutCost: nat)

  datatype Response = Response(rows: seq<UsageRow>, totals: Totals, next: Option<string>)

  /** LIMIT n + 1: one row more than asked for tells whether there is a next page. */
  method FetchPage(py: Python, db: Source<Row, string>, cursor: Option<string>, limit: nat)
    returns (rows: seq<Row>, next: Option<string>)
    ensures Page(rows, next) == Respond(db, Key(py), cursor, limit)
  {
    var got := Take(db(cursor), limit + 1);
    rows := Take(got, limit);
    next := None;
    if |got| > limit && rows != [] {
      next := Some(EncodeCursor(py, CursorOf(rows[|rows| - 1])));
    }
  }

  /** The loop that prices the rows of a page. */
  method PriceRows(raw: seq<Row>, price: Pricer) returns (rows: seq<UsageRow>)
    ensures |rows| == |raw| && forall i :: 0 <= i < |raw| ==> rows[i] == UsageRow(raw[i], RowPrice(price, raw[i]))
  {
    rows := [];
    for i := 0 to |raw|
      invariant |rows| == i
      invariant forall k :: 0 <= k < i ==> rows[k] == UsageRow(raw[k], RowPrice(price, raw[k]))
    {
      rows := rows + [UsageRow(raw[i], RowPrice(price, raw[i]))];
    }
  }

  /** The loop over the cost buckets. */
  method SumBuckets(price: Pricer, xs: seq<Row>) returns (cost: Option<real>, without: nat)
    ensures var c := CostOf(price, xs, Buckets(xs));
            cost == TotalCost(c) && without == c.unpriced
  {
    var bs := Buckets(xs);
    var total, any := 0.0, false;
    without := 0;
    var i := 0;
    while i < |bs|
      invariant 0 <= i <= |bs|
      invariant Costs(total, without, any) == CostOf(price, xs, bs[..i])
    {
      assert bs[..i + 1][..i] == bs[..i];
      var rows := Keep(xs, In(bs[i]));
      var usd := BucketPrice(price, xs, bs[i]);
      if usd.None? {
        without := without + |rows|;
      } else {
        any := true;
        total := total + usd.value;
      }
      i := i + 1;
    }
    assert bs[..i] == bs;
    cost := if any then Some(Quantize(total)) else None;
  }

  /** `list_usage`: one page of the walk, each row priced, with the totals of the whole set. */
  method ListUsage(py: Python, records: seq<Record>, q: Query, cursor: Option<string>, limit: nat, price: Pricer)
    returns (r: Result<Response, Error>)
    requires 1 <= limit <= 1000
    ensures r == Failure(InvalidDateRange) <==> q.since > q.until
    ensures r == Failure(InvalidCursor) <==>
            q.since <= q.until && cursor.Some? && DecodeCursor(py, cursor.value).None?
    ensures r.Success? ==>
              var page, xs := Respond(Database(py, records, q), Key(py), cursor, limit), Expand(records, q);
              var costs := CostOf(price, xs, Buckets(xs));
              && |r.value.rows| == |page.rows|
              && (forall i :: 0 <= i < |page.rows| ==>
                  r.value.rows[i] == UsageRow(page.rows[i], RowPrice(price, page.rows[i])))
              && r.value.next == page.next
              && r.value.totals == Totals(Total(xs), |xs|, TotalCost(costs), costs.unpriced)
  {
    if q.since > q.until {
      return Failure(InvalidDateRange);
    }
    if cursor.Some? && DecodeCursor(py, cursor.value).None? {
      return Failure(InvalidCursor);
    }
    var raw, next := FetchPage(py, Database(py, records, q), cursor, limit);
    var rows := PriceRows(raw, price);
    var xs := Expand(records, q);
    var cost, without := SumBuckets(price, xs);
    return Success(Response(rows, Totals(Total(xs), |xs|, cost, without), next));
  }
}
