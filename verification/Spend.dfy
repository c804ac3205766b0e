/**
 Budget spend over the Anthropic usage rows of a window, and the grouped pricing of the
 daily series.  The additive laws are about amounts before the final rounding to cents.
 */
module Spend {
  import opened Wrappers
  import opened Money
  import opened Paging
  import opened UsagePaging

  datatype ScopeKind = Tenant | Workspace | Model | ApiKey

  datatype Scope = Scope(kind: ScopeKind, value: Option<string>)

  datatype Error = MissingScopeValue | UnexpectedScopeValue

  /** Cost of a row, None for an unknown model. */
  type Pricing = Row -> Option<real>

  predicate InScope(s: Scope, x: Row) {
    match s.kind
    case Tenant => true
    case Workspace => x.workspaceId == s.value
    case Model => x.model == s.value
    case ApiKey => x.apiKeyId == s.value
  }

  predicate InWindow(start: int, end: int, x: Row) {
    start <= x.at < end
  }

  /** The query's WHERE clause. */
  function Picks(records: seq<Record>, start: int, end: int, s: Scope): Row -> bool {
    (x: Row) => x.vendor == Anthropic && InWindow(start, end, x) && InScope(s, x) && !Superseded(records, x)
  }

  function Selected(records: seq<Record>, start: int, end: int, s: Scope): seq<Row> {
    Keep(AllRows(records), Picks(records, start, end, s))
  }

  /** The query takes the Anthropic rows of the half-open window and of the scope, less the legacy rows
      of a date that has a per-model breakdown. */
  lemma SelectedRows(records: seq<Record>, start: int, end: int, s: Scope, x: Row)
    ensures x in Selected(records, start, end, s) <==>
            && x in AllRows(records) && x.vendor == Anthropic && start <= x.at < end
            && (s.kind == Workspace ==> x.workspaceId == s.value) && (s.kind == Model ==> x.model == s.value)
            && (s.kind == ApiKey ==> x.apiKeyId == s.value)
            && (x.model.Some? || !BrokenDown(records, x.at / DAY))
  {
    KeepHolds(AllRows(records), Picks(records, start, end, s), x);
    TaggedIsBrokenDown(records, x.at / DAY);
  }

  /** What one row adds: nothing without a model or a price. */
  function Charge(price: Pricing, x: Row): real {
    if x.model.None? || x.model.value == "" || price(x).None? then 0.0 else price(x).value
  }

  function Spent(xs: seq<Row>, price: Pricing): real {
    if xs == [] then 0.0 else Charge(price, xs[0]) + Spent(xs[1..], price)
  }

  function SpendIn(records: seq<Record>, start: int, end: int, s: Scope, price: Pricing): real {
    Spent(Selected(records, start, end, s), price)
  }

  lemma {:induction false} SpentAppend(xs: seq<Row>, x: Row, price: Pricing)
    ensures Spent(xs + [x], price) == Spent(xs, price) + Charge(price, x)
  {
    if xs == [] {
      assert xs + [x] == [x] && [x][1..] == [];
    } else {
      SpentAppend(xs[1..], x, price);
      assert (xs + [x])[1..] == xs[1..] + [x];
    }
  }

  /** `compute_spend_in_window`: the spend, rounded once at the end. */
  method ComputeSpendInWindow(records: seq<Record>, start: int, end: int, s: Scope, price: Pricing)
    returns (r: Result<real, Error>)
    ensures r == Failure(MissingScopeValue) <==> s.kind != Tenant && (s.value.None? || s.value.value == "")
    ensures r == Failure(UnexpectedScopeValue) <==> s.kind == Tenant && s.value.Some?
    ensures r.Success? ==> r.value == Quantize(SpendIn(records, start, end, s, price))
  {
    if s.kind != Tenant && (s.value.None? || s.value.value == "") {
      return Failure(MissingScopeValue);
    }
    if s.kind == Tenant && s.value.Some? {
      return Failure(UnexpectedScopeValue);
    }
    var rows := Selected(records, start, end, s);
    var total := 0.0;
    for i := 0 to |rows|
      invariant total == Spent(rows[..i], price)
    {
      SpentAppend(rows[..i], rows[i], price);
      assert rows[..i + 1] == rows[..i] + [rows[i]];
      var x := rows[i];
      if x.model.None? || x.model.value == "" {
        continue;
      }
      var cost := price(x);
      if cost.None? {
        continue;
      }
      total := total + cost.value;
    }
    assert rows[..|rows|] == rows;
    return Success(Quantize(total));
  }

  // ---- Sums over parts of the rows ----

  /** The spend of the rows a condition picks. */
  function SpentWhere(xs: seq<Row>, p: Row -> bool, price: Pricing): real {
    if xs == [] then 0.0
    else (if p(xs[0]) then Charge(price, xs[0]) else 0.0) + SpentWhere(xs[1..], p, price)
  }

  lemma {:induction false} SpentKeep(xs: seq<Row>, p: Row -> bool, price: Pricing)
    ensures Spent(Keep(xs, p), price) == SpentWhere(xs, p, price)
  {
    if xs != [] {
      SpentKeep(xs[1..], p, price);
      if p(xs[0]) {
        assert ([xs[0]] + Keep(xs[1..], p))[1..] == Keep(xs[1..], p);
      }
    }
  }

  /** Two conditions part a third. */
  predicate Parts(p: Row -> bool, q: Row -> bool, r: Row -> bool, x: Row) {
    (p(x) <==> q(x) || r(x)) && !(q(x) && r(x))
  }

  lemma {:induction false} SpentSplits(xs: seq<Row>, p: Row -> bool, q: Row -> bool, r: Row -> bool, price: Pricing)
    requires forall x :: Parts(p, q, r, x)
    ensures SpentWhere(xs, p, price) == SpentWhere(xs, q, price) + SpentWhere(xs, r, price)
  {
    if xs != [] {
      SpentSplits(xs[1..], p, q, r, price);
      assert Parts(p, q, r, xs[0]);
    }
  }

  lemma {:induction false} SpentAgrees(xs: seq<Row>, p: Row -> bool, q: Row -> bool, price: Pricing)
    requires forall x :: Charge(price, x) != 0.0 ==> (p(x) <==> q(x))
    ensures SpentWhere(xs, p, price) == SpentWhere(xs, q, price)
  {
    if xs != [] {
      SpentAgrees(xs[1..], p, q, price);
      assert Charge(price, xs[0]) != 0.0 ==> (p(xs[0]) <==> q(xs[0]));
    }
  }

  lemma SpendWhere(records: seq<Record>, start: int, end: int, s: Scope, price: Pricing)
    ensures SpendIn(records, start, end, s, price) == SpentWhere(AllRows(records), Picks(records, start, end, s), price)
  {
    SpentKeep(AllRows(records), Picks(records, start, end, s), price);
  }

  // ---- The laws ----

  /** Spend is additive over adjacent half-open windows, in every scope. */
  lemma SpendIsAdditive(records: seq<Record>, a: int, b: int, c: int, s: Scope, price: Pricing)
    requires a <= b <= c
    ensures SpendIn(records, a, c, s, price) == SpendIn(records, a, b, s, price) + SpendIn(records, b, c, s, price)
  {
    SpendWhere(records, a, c, s, price);
    SpendWhere(records, a, b, s, price);
    SpendWhere(records, b, c, s, price);
    forall x ensures Parts(Picks(records, a, c, s), Picks(records, a, b, s), Picks(records, b, c, s), x) {
    }
    SpentSplits(AllRows(records), Picks(records, a, c, s), Picks(records, a, b, s), Picks(records, b, c, s), price);
  }

  function Unfiltered(start: int, end: int, s: Scope): Row -> bool {
    (x: Row) => x.vendor == Anthropic && InWindow(start, end, x) && InScope(s, x)
  }

  /** The supersession filter never changes spend: what it hides carries no price. */
  lemma SupersessionIsFree(records: seq<Record>, start: int, end: int, s: Scope, price: Pricing)
    ensures SpendIn(records, start, end, s, price) == Spent(Keep(AllRows(records), Unfiltered(start, end, s)), price)
  {
    SpendWhere(records, start, end, s, price);
    SpentKeep(AllRows(records), Unfiltered(start, end, s), price);
    SpentAgrees(AllRows(records), Picks(records, start, end, s), Unfiltered(start, end, s), price);
  }

  lemma {:induction false} AllRowsJoin(a: seq<Record>, b: seq<Record>)
    ensures AllRows(a + b) == AllRows(a) + AllRows(b)
  {
    if a == [] {
      assert a + b == b;
    } else {
      calc {
        AllRows(a + b);
        { assert (a + b)[0] == a[0] && (a + b)[1..] == a[1..] + b; }
        Elements(a[0]) + AllRows(a[1..] + b);
        { AllRowsJoin(a[1..], b); }
        Elements(a[0]) + (AllRows(a[1..]) + AllRows(b));
        AllRows(a) + AllRows(b);
      }
    }
  }

  lemma {:induction false} SpentWhereJoins(xs: seq<Row>, ys: seq<Row>, p: Row -> bool, price: Pricing)
    ensures SpentWhere(xs + ys, p, price) == SpentWhere(xs, p, price) + SpentWhere(ys, p, price)
  {
    if xs == [] {
      assert xs + ys == ys;
    } else {
      SpentWhereJoins(xs[1..], ys, p, price);
      assert (xs + ys)[1..] == xs[1..] + ys;
    }
  }

  /** Spend is additive over records too: no record changes what another costs. */
  lemma SpendAddsOverRecords(a: seq<Record>, b: seq<Record>, start: int, end: int, s: Scope, price: Pricing)
    ensures SpendIn(a + b, start, end, s, price) == SpendIn(a, start, end, s, price) + SpendIn(b, start, end, s, price)
  {
    var p := Unfiltered(start, end, s);
    SupersessionIsFree(a + b, start, end, s, price);
    SupersessionIsFree(a, start, end, s, price);
    SupersessionIsFree(b, start, end, s, price);
    AllRowsJoin(a, b);
    SpentWhereJoins(AllRows(a), AllRows(b), p, price);
    SpentKeep(AllRows(a + b), p, price);
    SpentKeep(AllRows(a), p, price);
    SpentKeep(AllRows(b), p, price);
  }

  /** One result is charged its own price, exactly when its time is in the window and it is in the
      scope; nothing without a model or a price. */
  lemma OneResultSpend(r: Record, x: Row, start: int, end: int, s: Scope, price: Pricing)
    requires r.AdminRecord? && |r.results| == 1 && Shows(r, x)
    ensures var charged := start <= x.at < end
                && (s.kind == Workspace ==> x.workspaceId == s.value) && (s.kind == Model ==> x.model == s.value)
                && (s.kind == ApiKey ==> x.apiKeyId == s.value);
            var priced := x.model.Some? && x.model.value != "" && price(x).Some?;
            SpendIn([r], start, end, s, price) == if charged && priced then price(x).value else 0.0
  {
    ElementsShow(r, x);
    assert [r][1..] == [] && AllRows([]) == [] && AllRows([r]) == Elements(r) + [];
    assert AllRows([r]) == [x] && [x][1..] == [];
    SupersessionIsFree([r], start, end, s, price);
    SpentKeep(AllRows([r]), Unfiltered(start, end, s), price);
    assert SpentWhere([], Unfiltered(start, end, s), price) == 0.0;
  }

  /** The dimension a kind of scope slices by. */
  function Dimension(kind: ScopeKind, x: Row): Option<string> {
    match kind
    case Tenant => None
    case Workspace => x.workspaceId
    case Model => x.model
    case ApiKey => x.apiKeyId
  }

  function SpendOver(records: seq<Record>, start: int, end: int, kind: ScopeKind, values: seq<string>,
                     price: Pricing): real {
    if values == [] then 0.0
    else SpendIn(records, start, end, Scope(kind, Some(values[0])), price)
         + SpendOver(records, start, end, kind, values[1..], price)
  }

  function Among(p: Row -> bool, kind: ScopeKind, values: seq<string>): Row -> bool {
    (x: Row) => p(x) && Dimension(kind, x).Some? && Dimension(kind, x).value in values
  }

  ghost predicate NoRepeats(values: seq<string>) {
    forall i, j :: 0 <= i < j < |values| ==> values[i] != values[j]
  }

  lemma HeadAndRest(values: seq<string>)
    requires values != [] && NoRepeats(values)
    ensures values[0] !in values[1..]
    ensures forall v :: v in values <==> v == values[0] || v in values[1..]
  {
    assert values == [values[0]] + values[1..];
  }

  /** A row among the values is in the first one's slice or among the others. */
  lemma SlicePart(all: Row -> bool, slice: Row -> bool, kind: ScopeKind, values: seq<string>, x: Row)
    requires values != [] && NoRepeats(values)
    requires slice(x) <==> all(x) && Dimension(kind, x) == Some(values[0])
    ensures Parts(Among(all, kind, values), slice, Among(all, kind, values[1..]), x)
  {
    HeadAndRest(values);
  }

  lemma {:induction false} ScopesAddUp(records: seq<Record>, start: int, end: int, kind: ScopeKind,
                                       values: seq<string>, price: Pricing)
    requires kind != Tenant && NoRepeats(values)
    ensures SpendOver(records, start, end, kind, values, price)
         == SpentWhere(AllRows(records), Among(Picks(records, start, end, Scope(Tenant, None)), kind, values), price)
  {
    var all := Picks(records, start, end, Scope(Tenant, None));
    if values == [] {
      NothingSpent(AllRows(records), Among(all, kind, values), price);
    } else {
      ScopesAddUp(records, start, end, kind, values[1..], price);
      SpendWhere(records, start, end, Scope(kind, Some(values[0])), price);
      var slice := Picks(records, start, end, Scope(kind, Some(values[0])));
      forall x ensures Parts(Among(all, kind, values), slice, Among(all, kind, values[1..]), x) {
        SlicePart(all, slice, kind, values, x);
      }
      SpentSplits(AllRows(records), Among(all, kind, values), slice, Among(all, kind, values[1..]), price);
    }
  }

  lemma {:induction false} NothingSpent(xs: seq<Row>, p: Row -> bool, price: Pricing)
    requires forall x :: !p(x)
    ensures SpentWhere(xs, p, price) == 0.0
  {
    if xs != [] {
      NothingSpent(xs[1..], p, price);
      assert !p(xs[0]);
    }
  }

  function Outside(p: Row -> bool, kind: ScopeKind, values: seq<string>): Row -> bool {
    (x: Row) => p(x) && !(Dimension(kind, x).Some? && Dimension(kind, x).value in values)
  }

  /** A tenant's spend is the sum over any distinct workspaces, keys or models, plus that of the
      rows with none of them. */
  lemma TenantSplitsByScope(records: seq<Record>, start: int, end: int, kind: ScopeKind, values: seq<string>,
                            price: Pricing)
    requires kind != Tenant && NoRepeats(values)
    ensures SpendIn(records, start, end, Scope(Tenant, None), price)
         == SpendOver(records, start, end, kind, values, price)
            + Spent(Keep(AllRows(records), Outside(Picks(records, start, end, Scope(Tenant, None)), kind, values)),
                    price)
  {
    var all := Picks(records, start, end, Scope(Tenant, None));
    SpendWhere(records, start, end, Scope(Tenant, None), price);
    ScopesAddUp(records, start, end, kind, values, price);
    SpentKeep(AllRows(records), Outside(all, kind, values), price);
    forall x ensures Parts(all, Among(all, kind, values), Outside(all, kind, values), x) {
    }
    SpentSplits(AllRows(records), all, Among(all, kind, values), Outside(all, kind, values), price);
  }

  /** Every named model among the rows is on the list. */
  ghost predicate Covers(models: seq<string>, xs: seq<Row>) {
    forall i :: 0 <= i < |xs| && xs[i].model.Some? && xs[i].model.value != "" ==> xs[i].model.value in models
  }

  lemma {:induction false} CoveredSpend(xs: seq<Row>, p: Row -> bool, models: seq<string>, price: Pricing)
    requires Covers(models, xs)
    ensures SpentWhere(xs, p, price) == SpentWhere(xs, Among(p, Model, models), price)
  {
    if xs != [] {
      assert xs[0].model.Some? && xs[0].model.value != "" ==> xs[0].model.value in models;
      CoveredSpend(xs[1..], p, models, price);
    }
  }

  /** A tenant's spend is the sum of its models' spends: rows without a model cost nothing. */
  lemma TenantIsSumOfModels(records: seq<Record>, start: int, end: int, models: seq<string>, price: Pricing)
    requires NoRepeats(models) && Covers(models, AllRows(records))
    ensures SpendIn(records, start, end, Scope(Tenant, None), price)
        == SpendOver(records, start, end, Model, models, price)
  {
    var all := Picks(records, start, end, Scope(Tenant, None));
    SpendWhere(records, start, end, Scope(Tenant, None), price);
    CoveredSpend(AllRows(records), all, models, price);
    ScopesAddUp(records, start, end, Model, models, price);
  }

  // ---- Grouped pricing ----

  datatype Rates = Rates(input: real, output: real, cacheRead: real, cacheCreation: real)

  /** The rate card: a known model's rates at an instant. */
  type RateCard = (string, int) -> Option<Rates>

  const FREE := Rates(0.0, 0.0, 0.0, 0.0)

  function Cost(r: Rates, t: Tokens): real {
    t.input as real * r.input + t.output as real * r.output
    + t.cacheRead as real * r.cacheRead + t.cacheCreation as real * r.cacheCreation
  }

  function PriceTokens(card: RateCard, model: Option<string>, t: Tokens, at: int): Option<real> {
    if model.None? || model.value == "" then None
    else match card(model.value, at) case None => None case Some(r) => Some(Cost(r, t))
  }

  function PriceRow(card: RateCard): Pricing {
    (x: Row) => PriceTokens(card, x.model, x.tokens, x.at)
  }

  /** One `GROUP BY day, model` bucket: summed tokens priced at its earliest row. */
  function BucketCost(card: RateCard, xs: seq<Row>): real {
    if xs == [] then 0.0
    else match PriceTokens(card, xs[0].model, Total(xs), MinAt(xs)) case None => 0.0 case Some(c) => c
  }

  function MinAt(xs: seq<Row>): (m: int)
    requires xs != []
    ensures forall i :: 0 <= i < |xs| ==> m <= xs[i].at
    ensures exists i :: 0 <= i < |xs| && m == xs[i].at
  {
    if |xs| == 1 then xs[0].at
    else var m := MinAt(xs[1..]); if xs[0].at <= m then xs[0].at else m
  }

  lemma CostAdds(r: Rates, a: Tokens, b: Tokens)
    ensures Cost(r, Add(a, b)) == Cost(r, a) + Cost(r, b)
  {
    Share(a.input, b.input, r.input);
    Share(a.output, b.output, r.output);
    Share(a.cacheRead, b.cacheRead, r.cacheRead);
    Share(a.cacheCreation, b.cacheCreation, r.cacheCreation);
  }

  lemma Share(a: int, b: int, rate: real)
    ensures (a + b) as real * rate == a as real * rate + b as real * rate
  {
    assert (a + b) as real == a as real + b as real;
  }

  /** A token of each kind costs its own rate; with `CostAdds`, that is all there is to a cost. */
  lemma UnitCost(r: Rates)
    ensures Cost(r, Tokens(1, 0, 0, 0, 0)) == r.input && Cost(r, Tokens(0, 1, 0, 0, 0)) == r.output
    ensures Cost(r, Tokens(0, 0, 1, 0, 0)) == r.cacheRead && Cost(r, Tokens(0, 0, 0, 1, 0)) == r.cacheCreation
    ensures Cost(r, Tokens(0, 0, 0, 0, 1)) == 0.0
  {
    Nothing(r);
  }

  lemma Nothing(r: Rates)
    ensures Cost(r, Tokens(0, 0, 0, 0, 0)) == 0.0
  {
    Share(0, 0, r.input);
    Share(0, 0, r.output);
    Share(0, 0, r.cacheRead);
    Share(0, 0, r.cacheCreation);
  }

  /** What a named model's tokens cost at an instant: nothing while it is unknown. */
  function RatesOr(card: RateCard, model: string, at: int): Rates {
    match card(model, at) case None => FREE case Some(r) => r
  }

  lemma PriceIsCost(card: RateCard, model: string, t: Tokens, at: int)
    requires model != ""
    ensures (match PriceTokens(card, Some(model), t, at) case None => 0.0 case Some(c) => c)
        == Cost(RatesOr(card, model, at), t)
  {
  }

  ghost predicate PricedAt(card: RateCard, xs: seq<Row>, model: string, r: Rates) {
    forall i :: 0 <= i < |xs| ==> xs[i].model == Some(model) && RatesOr(card, model, xs[i].at) == r
  }

  lemma {:induction false} RowsPriceLikeTotal(card: RateCard, xs: seq<Row>, model: string, r: Rates)
    requires model != "" && PricedAt(card, xs, model, r)
    ensures Spent(xs, PriceRow(card)) == Cost(r, Total(xs))
  {
    if xs == [] {
      Nothing(r);
    } else {
      RowsPriceLikeTotal(card, xs[1..], model, r);
      CostAdds(r, xs[0].tokens, Total(xs[1..]));
      PriceIsCost(card, model, xs[0].tokens, xs[0].at);
    }
  }

  /** Pricing summed tokens once is pricing the rows one by one, when the rates are the same. */
  lemma BucketPricesLikeRows(card: RateCard, xs: seq<Row>, model: string, r: Rates)
    requires model != "" && PricedAt(card, xs, model, r)
    ensures BucketCost(card, xs) == Spent(xs, PriceRow(card))
  {
    RowsPriceLikeTotal(card, xs, model, r);
    if xs == [] {
      Nothing(r);
    } else {
      PriceIsCost(card, model, Total(xs), MinAt(xs));
    }
  }

  /** No model's rates change within the UTC day. */
  ghost predicate SteadyOn(card: RateCard, day: int) {
    forall model, s, t :: model != "" && s / DAY == day && t / DAY == day ==>
      RatesOr(card, model, s) == RatesOr(card, model, t)
  }

  function OnDay(day: int): Row -> bool {
    (x: Row) => x.vendor == Anthropic && x.at / DAY == day
  }

  function InBucket(day: int, model: string): Row -> bool {
    (x: Row) => x.vendor == Anthropic && x.at / DAY == day && x.model == Some(model)
  }

  /** One day of `daily_spend`, before it is rounded: the buckets of its models, added up. */
  function DaySpend(card: RateCard, xs: seq<Row>, day: int, models: seq<string>): real {
    if models == [] then 0.0
    else BucketCost(card, Keep(xs, InBucket(day, models[0]))) + DaySpend(card, xs, day, models[1..])
  }

  lemma DayBucket(card: RateCard, xs: seq<Row>, day: int, model: string)
    requires model != "" && SteadyOn(card, day)
    ensures BucketCost(card, Keep(xs, InBucket(day, model))) == SpentWhere(xs, InBucket(day, model), PriceRow(card))
  {
    var bucket := Keep(xs, InBucket(day, model));
    forall i | 0 <= i < |bucket| ensures bucket[i].at / DAY == day && bucket[i].model == Some(model) {
      KeepIn(xs, InBucket(day, model), i);
    }
    if bucket != [] {
      BucketPricesLikeRows(card, bucket, model, RatesOr(card, model, bucket[0].at));
    }
    SpentKeep(xs, InBucket(day, model), PriceRow(card));
  }

  lemma {:induction false} DayBuckets(card: RateCard, xs: seq<Row>, day: int, models: seq<string>)
    requires NoRepeats(models) && "" !in models && SteadyOn(card, day)
    ensures DaySpend(card, xs, day, models) == SpentWhere(xs, Among(OnDay(day), Model, models), PriceRow(card))
  {
    if models == [] {
      NothingSpent(xs, Among(OnDay(day), Model, models), PriceRow(card));
    } else {
      var m := models[0];
      DayBuckets(card, xs, day, models[1..]);
      assert m in models;
      DayBucket(card, xs, day, m);
      forall x
        ensures Parts(Among(OnDay(day), Model, models), InBucket(day, m), Among(OnDay(day), Model, models[1..]), x)
      {
        SlicePart(OnDay(day), InBucket(day, m), Model, models, x);
      }
      SpentSplits(xs, Among(OnDay(day), Model, models), InBucket(day, m), Among(OnDay(day), Model, models[1..]),
                  PriceRow(card));
    }
  }

  /** What pricing every record of the day on its own gives. */
  function PerRecord(card: RateCard, xs: seq<Row>, day: int): real {
    Spent(Keep(xs, OnDay(day)), PriceRow(card))
  }

  /** While no rate changes within the day, the grouped daily series is what its records cost one
      by one, rounded once. */
  lemma DailySpendIsPerRecord(card: RateCard, xs: seq<Row>, day: int, models: seq<string>)
    requires NoRepeats(models) && "" !in models && Covers(models, xs) && SteadyOn(card, day)
    ensures DaySpend(card, xs, day, models) == PerRecord(card, xs, day)
    ensures -0.005 <= Quantize(DaySpend(card, xs, day, models)) - PerRecord(card, xs, day) <= 0.005
  {
    DayBuckets(card, xs, day, models);
    CoveredSpend(xs, OnDay(day), models, PriceRow(card));
    SpentKeep(xs, OnDay(day), PriceRow(card));
  }

  // ---- When a rate changes within a day ----

  /** Tokens whose cost tells two rates apart. */
  function TellApart(r: Rates, s: Rates): (t: Tokens)
    requires r != s
    ensures Cost(r, t) != Cost(s, t) && t.webSearch == 0
    ensures r.cacheCreation == s.cacheCreation ==> t.cacheCreation == 0
  {
    if r.input != s.input then Tokens(1, 0, 0, 0, 0)
    else if r.output != s.output then Tokens(0, 1, 0, 0, 0)
    else if r.cacheRead != s.cacheRead then Tokens(0, 0, 1, 0, 0)
    else Tokens(0, 0, 0, 1, 0)
  }

  /** A record with one result, and the row it expands to. */
  function OneResult(id: string, at: int, vendor: Vendor, workspace: Option<string>, model: Option<string>,
                     t: Tokens): Record {
    match vendor
    case Anthropic =>
      AdminRecord(id, at, [AdminResult(workspace, None, model, Some(t.input), Some(t.output), Some(t.cacheRead),
                                       Some(t.cacheCreation), None, None, Some(t.webSearch))])
    case OpenAi =>
      OpenAiRecord(id, at, Some(OpenAiResult(workspace, None, model, Some(t.input), Some(t.cacheRead), Some(t.output))))
  }

  lemma OneResultRow(id: string, at: int, vendor: Vendor, workspace: Option<string>, model: Option<string>, t: Tokens)
    requires vendor == OpenAi ==> t.cacheCreation == 0 && t.webSearch == 0
    ensures Elements(OneResult(id, at, vendor, workspace, model, t))
        == [Row(at, id, 1, vendor, workspace, None, model, t)]
  {
  }

  lemma TwoRecordRows(a: Record, b: Record, x: Row, y: Row)
    requires Elements(a) == [x] && Elements(b) == [y]
    ensures AllRows([a, b]) == [x, y]
  {
    assert [a, b][1..] == [b] && [b][1..] == [];
    assert AllRows([b]) == [y];
  }

  lemma TwoRows(x: Row, y: Row)
    requires x.at <= y.at
    ensures Total([x, y]) == Add(x.tokens, y.tokens) && MinAt([x, y]) == x.at
  {
    assert [x, y][1..] == [y] && [y][1..] == [];
    assert Total([y]) == y.tokens && MinAt([y]) == y.at;
  }

  lemma TwoSpent(x: Row, y: Row, price: Pricing)
    ensures Spent([x, y], price) == Charge(price, x) + Charge(price, y)
  {
    assert [] + [x] == [x] && [x] + [y] == [x, y];
    SpentAppend([], x, price);
    SpentAppend([x], y, price);
  }

  ghost predicate DayMatches(card: RateCard, records: seq<Record>, day: int) {
    forall models :: NoRepeats(models) && "" !in models && Covers(models, AllRows(records)) ==>
      DaySpend(card, AllRows(records), day, models) == PerRecord(card, AllRows(records), day)
  }

  lemma TwoTimesMiss(card: RateCard, day: int, model: string, x: Row, y: Row)
    requires model != "" && x.model == y.model == Some(model) && x.vendor == y.vendor == Anthropic
    requires x.at / DAY == day && y.at / DAY == day && x.at <= y.at && x.tokens == y.tokens
    requires Cost(RatesOr(card, model, x.at), x.tokens) != Cost(RatesOr(card, model, y.at), x.tokens)
    ensures DaySpend(card, [x, y], day, [model]) != PerRecord(card, [x, y], day)
  {
    var xs := [x, y];
    KeepAll(xs, InBucket(day, model));
    KeepAll(xs, OnDay(day));
    TwoRows(x, y);
    TwoSpent(x, y, PriceRow(card));
    assert [model][1..] == [];
    PriceIsCost(card, model, Total(xs), x.at);
    PriceIsCost(card, model, x.tokens, x.at);
    PriceIsCost(card, model, y.tokens, y.at);
    CostAdds(RatesOr(card, model, x.at), x.tokens, x.tokens);
  }

  /** Two records on either side of a change within the day: the bucket prices both at the first. */
  lemma ChangeMissesDay(card: RateCard, day: int, model: string, s: int, t: int) returns (records: seq<Record>)
    requires model != "" && s / DAY == day && t / DAY == day && s <= t
    requires RatesOr(card, model, s) != RatesOr(card, model, t)
    ensures UniqueIds(records) && !DayMatches(card, records, day)
  {
    var tokens := TellApart(RatesOr(card, model, s), RatesOr(card, model, t));
    var a := OneResult("a", s, Anthropic, None, Some(model), tokens);
    var b := OneResult("b", t, Anthropic, None, Some(model), tokens);
    var x := Row(s, "a", 1, Anthropic, None, None, Some(model), tokens);
    var y := Row(t, "b", 1, Anthropic, None, None, Some(model), tokens);
    records := [a, b];
    OneResultRow("a", s, Anthropic, None, Some(model), tokens);
    OneResultRow("b", t, Anthropic, None, Some(model), tokens);
    TwoRecordRows(a, b, x, y);
    TwoTimesMiss(card, day, model, x, y);
    assert NoRepeats([model]) && Covers([model], [x, y]);
  }

  /** The daily series equals pricing record by record, for all records, if and only if no rate
      changes within the day. */
  lemma DailySpendMatchesIffSteady(card: RateCard, day: int)
    ensures (forall records :: UniqueIds(records) ==> DayMatches(card, records, day)) <==> SteadyOn(card, day)
  {
    if SteadyOn(card, day) {
      forall records | UniqueIds(records) ensures DayMatches(card, records, day) {
        forall models | NoRepeats(models) && "" !in models && Covers(models, AllRows(records))
          ensures DaySpend(card, AllRows(records), day, models) == PerRecord(card, AllRows(records), day)
        {
          DailySpendIsPerRecord(card, AllRows(records), day, models);
        }
      }
    } else {
      var model, s, t :| model != "" && s / DAY == day && t / DAY == day
          && RatesOr(card, model, s) != RatesOr(card, model, t);
      var records := ChangeMissesDay(card, day, model, if s <= t then s else t, if s <= t then t else s);
    }
  }
}
