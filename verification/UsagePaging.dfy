/**
 The usage list: two vendors' records expanded to one shape, filtered, ordered and
 paged by an opaque cursor.  Times are microseconds since the epoch.
 */
module UsagePaging {
  import opened Wrappers
  import opened Strings
  import opened Json
  import opened Ordering
  import opened Paging
  import Base64Url
  import Utf8

  const DAY := 86_400_000_000

  // ---- Records ----

  datatype AdminResult = AdminResult(
    workspaceId: Option<string>, apiKeyId: Option<string>, model: Option<string>,
    inputTokens: Option<int>, outputTokens: Option<int>, cacheRead: Option<int>,
    flatCreation: Option<int>, ephemeral5m: Option<int>, ephemeral1h: Option<int>, webSearch: Option<int>)

  datatype OpenAiResult = OpenAiResult(
    projectId: Option<string>, apiKeyId: Option<string>, model: Option<string>,
    inputUncached: Option<int>, inputCached: Option<int>, outputTokens: Option<int>)

  /** A tenant's usage record; an OpenAI bucket without a result is a sentinel. */
  datatype Record =
    | AdminRecord(id: string, at: int, results: seq<AdminResult>)
    | OpenAiRecord(id: string, at: int, result: Option<OpenAiResult>)

  datatype Vendor = Anthropic | OpenAi

  datatype Tokens = Tokens(input: int, output: int, cacheRead: int, cacheCreation: int, webSearch: int)

  datatype Row = Row(at: int, rid: string, ord: int, vendor: Vendor, workspaceId: Option<string>,
                     apiKeyId: Option<string>, model: Option<string>, tokens: Tokens)

  function OrZero(n: Option<int>): int {
    if n.Some? then n.value else 0
  }

  /** A flat zero does not mask the nested sum; the sum is missing if either part is. */
  function CacheCreation(r: AdminResult): int {
    if r.flatCreation.Some? && r.flatCreation.value != 0 then r.flatCreation.value
    else if r.ephemeral5m.Some? && r.ephemeral1h.Some? then r.ephemeral5m.value + r.ephemeral1h.value
    else 0
  }

  function AdminRow(r: Record, i: nat): Row
    requires r.AdminRecord? && i < |r.results|
  {
    var x := r.results[i];
    Row(r.at, r.id, i + 1, Anthropic, x.workspaceId, x.apiKeyId, x.model,
        Tokens(OrZero(x.inputTokens), OrZero(x.outputTokens), OrZero(x.cacheRead), CacheCreation(x),
               OrZero(x.webSearch)))
  }

  /** The cached part of the input is counted once, as cache reads. */
  function OpenAiRow(r: Record): Row
    requires r.OpenAiRecord? && r.result.Some?
  {
    var x := r.result.value;
    Row(r.at, r.id, 1, OpenAi, x.projectId, x.apiKeyId, x.model,
        Tokens(OrZero(x.inputUncached), OrZero(x.outputTokens), OrZero(x.inputCached), 0, 0))
  }

  function Elements(r: Record): seq<Row> {
    match r
    case AdminRecord(_, _, results) => seq(|results|, i requires 0 <= i < |results| => AdminRow(r, i))
    case OpenAiRecord(_, _, result) => if result.Some? then [OpenAiRow(r)] else []
  }

  function AllRows(records: seq<Record>): seq<Row> {
    if records == [] then [] else Elements(records[0]) + AllRows(records[1..])
  }

  /** A counter as it is shown: a missing one is zero. */
  predicate Counts(n: Option<int>, shown: int) {
    n == Some(shown) || (n == None && shown == 0)
  }

  /** Cache creation as it is shown: the flat counter, or when that is missing or zero, both nested
      ones together. */
  predicate CountsCreation(r: AdminResult, shown: int) {
    && (r.flatCreation.Some? && r.flatCreation.value != 0 ==> r.flatCreation == Some(shown))
    && (r.flatCreation in {None, Some(0)} ==>
          match (r.ephemeral5m, r.ephemeral1h)
          case (Some(m), Some(n)) => shown == m + n
          case _ => shown == 0)
  }

  /** A row shows one result of the record: the one at its place, counter by counter.  The cached
      input of an OpenAI result is shown once, as cache reads. */
  predicate Shows(r: Record, x: Row) {
    && x.at == r.at && x.rid == r.id
    && match r
       case AdminRecord(_, _, results) =>
         && x.vendor == Anthropic && 1 <= x.ord <= |results|
         && var y := results[x.ord - 1];
            && x.workspaceId == y.workspaceId && x.apiKeyId == y.apiKeyId && x.model == y.model
            && Counts(y.inputTokens, x.tokens.input) && Counts(y.outputTokens, x.tokens.output)
            && Counts(y.cacheRead, x.tokens.cacheRead) && CountsCreation(y, x.tokens.cacheCreation)
            && Counts(y.webSearch, x.tokens.webSearch)
       case OpenAiRecord(_, _, result) =>
         && x.vendor == OpenAi && x.ord == 1 && result.Some?
         && var y := result.value;
            && x.workspaceId == y.projectId && x.apiKeyId == y.apiKeyId && x.model == y.model
            && Counts(y.inputUncached, x.tokens.input) && Counts(y.outputTokens, x.tokens.output)
            && Counts(y.inputCached, x.tokens.cacheRead) && x.tokens.cacheCreation == 0 && x.tokens.webSearch == 0
  }

  lemma CountsOne(n: Option<int>, shown: int)
    ensures Counts(n, shown) <==> shown == OrZero(n)
  {
  }

  lemma CountsOneCreation(y: AdminResult, shown: int)
    ensures CountsCreation(y, shown) <==> shown == CacheCreation(y)
  {
  }

  lemma AdminShows(r: Record, x: Row)
    requires r.AdminRecord?
    ensures Shows(r, x) <==> 1 <= x.ord <= |r.results| && x == AdminRow(r, x.ord - 1)
  {
    if 1 <= x.ord <= |r.results| {
      var y := r.results[x.ord - 1];
      CountsOne(y.inputTokens, x.tokens.input);
      CountsOne(y.outputTokens, x.tokens.output);
      CountsOne(y.cacheRead, x.tokens.cacheRead);
      CountsOne(y.webSearch, x.tokens.webSearch);
      CountsOneCreation(y, x.tokens.cacheCreation);
    }
  }

  lemma ElementsShow(r: Record, x: Row)
    ensures x in Elements(r) <==> Shows(r, x)
  {
    if r.AdminRecord? {
      AdminShows(r, x);
      if 1 <= x.ord <= |r.results| {
        assert Elements(r)[x.ord - 1] == AdminRow(r, x.ord - 1);
      }
    } else if Shows(r, x) {
      assert x == OpenAiRow(r);
    }
  }

  /** The rows of a tenant's records are exactly their results. */
  lemma {:induction false} AllRowsShow(records: seq<Record>, x: Row)
    ensures x in AllRows(records) <==> exists r :: r in records && Shows(r, x)
  {
    if records != [] {
      ElementsShow(records[0], x);
      AllRowsShow(records[1..], x);
    }
  }

  // ---- Filters ----

  datatype Query = Query(since: int, until: int, workspaceId: Option<string>, model: Option<string>)

  predicate TaggedOn(r: Record, day: int) {
    r.AdminRecord? && r.at / DAY == day && exists i :: 0 <= i < |r.results| && r.results[i].model.Some?
  }

  /** A legacy aggregate on a UTC date that also has a per-model breakdown. */
  predicate Superseded(records: seq<Record>, x: Row) {
    x.vendor == Anthropic && x.model.None? && exists i :: 0 <= i < |records| && TaggedOn(records[i], x.at / DAY)
  }

  predicate Wanted(records: seq<Record>, q: Query, x: Row) {
    && q.since * DAY <= x.at < (q.until + 1) * DAY
    && (q.workspaceId.Some? ==> x.workspaceId == q.workspaceId)
    && (q.model.Some? ==> x.model == q.model)
    && !Superseded(records, x)
  }

  function Expand(records: seq<Record>, q: Query): seq<Row> {
    Keep(AllRows(records), (x: Row) => Wanted(records, q, x))
  }

  /** On that UTC date some Anthropic row has a model. */
  predicate BrokenDown(records: seq<Record>, day: int) {
    exists y :: y in AllRows(records) && y.vendor == Anthropic && y.at / DAY == day && y.model.Some?
  }

  lemma BrokenDownIsTagged(records: seq<Record>, y: Row)
    requires y in AllRows(records) && y.vendor == Anthropic && y.model.Some?
    ensures exists i :: 0 <= i < |records| && TaggedOn(records[i], y.at / DAY)
  {
    AllRowsShow(records, y);
    var r :| r in records && Shows(r, y);
    assert r.results[y.ord - 1].model.Some?;
    var i :| 0 <= i < |records| && records[i] == r;
    assert TaggedOn(records[i], y.at / DAY);
  }

  lemma TaggedIsBrokenDown(records: seq<Record>, day: int)
    ensures BrokenDown(records, day) <==> exists i :: 0 <= i < |records| && TaggedOn(records[i], day)
  {
    if BrokenDown(records, day) {
      var y :| y in AllRows(records) && y.vendor == Anthropic && y.at / DAY == day && y.model.Some?;
      BrokenDownIsTagged(records, y);
    }
    if i :| 0 <= i < |records| && TaggedOn(records[i], day) {
      var k :| 0 <= k < |records[i].results| && records[i].results[k].model.Some?;
      TaggedRow(records, records[i], k);
    }
  }

  lemma TaggedRow(records: seq<Record>, r: Record, k: nat)
    requires r in records && r.AdminRecord? && k < |r.results| && r.results[k].model.Some?
    ensures BrokenDown(records, r.at / DAY)
  {
    var y := AdminRow(r, k);
    assert Elements(r)[k] == y;
    ElementsShow(r, y);
    AllRowsShow(records, y);
  }

  /** The listed rows: both dates of the range included, whatever the time of day.  A legacy row of
      Anthropic is left out exactly when its UTC date has a per-model breakdown, whatever the
      filters; without one it is listed. */
  lemma ExpandedRows(records: seq<Record>, q: Query, x: Row)
    ensures x in Expand(records, q) <==>
            && x in AllRows(records) && q.since <= x.at / DAY <= q.until
            && (q.workspaceId.Some? ==> x.workspaceId == q.workspaceId)
            && (q.model.Some? ==> x.model == q.model)
            && (x.vendor == OpenAi || x.model.Some? || !BrokenDown(records, x.at / DAY))
  {
    KeepHolds(AllRows(records), (y: Row) => Wanted(records, q, y), x);
    assert q.since * DAY <= x.at < (q.until + 1) * DAY <==> q.since <= x.at / DAY < q.until + 1;
    TaggedIsBrokenDown(records, x.at / DAY);
  }

  // ---- Order and cursor ----

  /** ORDER BY occurred_at DESC, record_id DESC, ordinality ASC */
  predicate Before(a: Row, b: Row) {
    b.at < a.at || (b.at == a.at && (Less(b.rid, a.rid) || (b.rid == a.rid && a.ord < b.ord)))
  }

  datatype Cursor = Cursor(ts: int, rid: string, ord: int)

  /** The three arms of both branches' cursor clause. */
  predicate AfterCursor(c: Cursor, x: Row) {
    || x.at < c.ts
    || (x.at == c.ts && Less(x.rid, c.rid))
    || (x.at == c.ts && x.rid == c.rid && x.ord > c.ord)
  }

  function CursorOf(x: Row): Cursor {
    Cursor(x.at, x.rid, x.ord)
  }

  /** ISO timestamps, and Python's `str` and `int` on decoded JSON. */
  datatype Python = Python(iso: int -> string, fromIso: string -> Option<int>, str: Json -> string,
                           toInt: Json -> Option<int>)

  ghost predicate Faithful(py: Python) {
    && (forall t :: py.fromIso(py.iso(t)) == Some(t))
    && (forall s :: py.str(Str(s)) == s)
    && (forall n :: py.toInt(Int(n)) == Some(n))
  }

  function Payload(py: Python, c: Cursor): Members {
    Member("ts", Str(py.iso(c.ts)), Member("rid", Str(c.rid), Member("ord", Int(c.ord), NoMembers)))
  }

  function EncodeCursor(py: Python, c: Cursor): string {
    Base64Url.Encode(Utf8.Encode(Text(Obj(Payload(py, c)))))
  }

  /** `payload[key]` of a decoded object: the last of repeated keys. */
  function Field(ms: Members, key: string): Option<Json> {
    match ms
    case NoMembers => None
    case Member(k, v, rest) =>
      var later := Field(rest, key);
      if later.Some? then later else if k == key then Some(v) else None
  }

  function DecodeCursor(py: Python, s: string): Option<Cursor> {
    match Base64Url.Decode(s)
    case None => None
    case Some(raw) =>
      match Utf8.Decode(raw)
      case None => None
      case Some(text) =>
        match Loads(text)
        case Some(Obj(ms)) => ReadCursor(py, Field(ms, "ts"), Field(ms, "rid"), Field(ms, "ord"))
        case _ => None
  }

  function ReadCursor(py: Python, ts: Option<Json>, rid: Option<Json>, ord: Option<Json>): Option<Cursor> {
    if ts.None? || !ts.value.Str? || rid.None? || ord.None? then None
    else
      match (py.fromIso(ts.value.s), py.toInt(ord.value))
      case (Some(t), Some(n)) => Some(Cursor(t, py.str(rid.value), n))
      case _ => None
  }

  lemma PayloadFields(py: Python, c: Cursor)
    ensures Field(Payload(py, c), "ts") == Some(Str(py.iso(c.ts)))
    ensures Field(Payload(py, c), "rid") == Some(Str(c.rid))
    ensures Field(Payload(py, c), "ord") == Some(Int(c.ord))
  {
    var third := Payload(py, c).rest.rest;
    var second := Payload(py, c).rest;
    assert Field(third, "ts") == None && Field(third, "rid") == None && Field(third, "ord") == Some(Int(c.ord));
    assert Field(second, "ts") == None && Field(second, "rid") == Some(Str(c.rid))
        && Field(second, "ord") == Some(Int(c.ord));
  }

  lemma DecodeText(py: Python, ms: Members)
    ensures DecodeCursor(py, Base64Url.Encode(Utf8.Encode(Text(Obj(ms)))))
         == ReadCursor(py, Field(ms, "ts"), Field(ms, "rid"), Field(ms, "ord"))
  {
    Base64Url.RoundTrip(Utf8.Encode(Text(Obj(ms))));
    Utf8.RoundTrip(Text(Obj(ms)));
    LoadsInvertsText(Obj(ms));
  }

  /** A cursor is decoded to what it was made from. */
  lemma CursorRoundTrip(py: Python, c: Cursor)
    requires Faithful(py)
    ensures DecodeCursor(py, EncodeCursor(py, c)) == Some(c)
  {
    PayloadFields(py, c);
    DecodeText(py, Payload(py, c));
  }

  // ---- The order is total on distinct rows ----

  lemma BeforeIsStrict(a: Row, b: Row)
    ensures !(Before(a, b) && Before(b, a)) && !Before(a, a)
    ensures a.rid != b.rid || a.ord != b.ord ==> Before(a, b) || Before(b, a)
  {
    LessIsStrict(a.rid, b.rid);
    LessIsTotal(a.rid, b.rid);
    LessIsStrict(a.rid, a.rid);
  }

  lemma AfterIsTransitive(c: Cursor, a: Row, b: Row)
    requires AfterCursor(c, a) && AfterCursor(CursorOf(a), b)
    ensures AfterCursor(c, b)
  {
    if a.at == c.ts && b.at == a.at && Less(a.rid, c.rid) && Less(b.rid, a.rid) {
      LessIsTransitive(b.rid, a.rid, c.rid);
    }
  }

  lemma BeforeIsTransitive()
    ensures Transitive(Before)
  {
    forall a, b, c ensures Chains(Before, a, b, c) {
      if Before(a, b) && Before(b, c) {
        AfterIsTransitive(CursorOf(a), b, c);
      }
    }
  }

  ghost predicate UniqueIds(records: seq<Record>) {
    forall i, j :: 0 <= i < j < |records| ==> records[i].id != records[j].id
  }

  /** The identity of a row: its record and its place in it. */
  predicate Differ(a: Row, b: Row) {
    a.rid != b.rid || a.ord != b.ord
  }

  ghost predicate AllDiffer(xs: seq<Row>) {
    forall i, j :: 0 <= i < j < |xs| ==> Differ(xs[i], xs[j])
  }

  predicate HasRecord(records: seq<Record>, rid: string) {
    exists j :: 0 <= j < |records| && records[j].id == rid
  }

  lemma {:induction false} RowsHaveRecords(records: seq<Record>)
    ensures forall i :: 0 <= i < |AllRows(records)| ==> HasRecord(records, AllRows(records)[i].rid)
  {
    if records != [] {
      var head, tail := Elements(records[0]), AllRows(records[1..]);
      RowsHaveRecords(records[1..]);
      forall i | 0 <= i < |head| ensures HasRecord(records, head[i].rid) {
        assert records[0].id == head[i].rid;
      }
      forall i | 0 <= i < |tail| ensures HasRecord(records, tail[i].rid) {
        var j :| 0 <= j < |records[1..]| && records[1..][j].id == tail[i].rid;
        assert records[j + 1].id == tail[i].rid;
      }
    }
  }

  lemma {:induction false} AllRowsDiffer(records: seq<Record>)
    requires UniqueIds(records)
    ensures AllDiffer(AllRows(records))
  {
    if records != [] {
      var head, tail := Elements(records[0]), AllRows(records[1..]);
      AllRowsDiffer(records[1..]);
      RowsHaveRecords(records[1..]);
      assert AllDiffer(head);
      forall i, j | 0 <= i < |head| && 0 <= j < |tail| ensures Differ(head[i], tail[j]) {
        var k :| 0 <= k < |records[1..]| && records[1..][k].id == tail[j].rid;
        assert records[k + 1].id != records[0].id;
      }
    }
  }

  lemma {:induction false} KeepDiffers(xs: seq<Row>, p: Row -> bool)
    requires AllDiffer(xs)
    ensures AllDiffer(Keep(xs, p))
  {
    if xs != [] {
      KeepDiffers(xs[1..], p);
      var rest := Keep(xs[1..], p);
      forall j | 0 <= j < |rest| ensures Differ(xs[0], rest[j]) {
        KeepIn(xs[1..], p, j);
        var k :| 0 <= k < |xs[1..]| && xs[1..][k] == rest[j];
        assert xs[k + 1] == rest[j];
      }
    }
  }

  lemma SortedListing(records: seq<Record>, q: Query)
    requires UniqueIds(records)
    ensures Ordered(Sort(Expand(records, q), Before), Before)
  {
    var xs := Expand(records, q);
    AllRowsDiffer(records);
    KeepDiffers(AllRows(records), (x: Row) => Wanted(records, q, x));
    forall i, j | 0 <= i < j < |xs| ensures Before(xs[i], xs[j]) || Before(xs[j], xs[i]) {
      assert Differ(xs[i], xs[j]);
      BeforeIsStrict(xs[i], xs[j]);
    }
    BeforeIsTransitive();
    SortIsSorted(xs, Before);
  }

  // ---- Walking the list ----

  /** The WHERE clause of a request with this cursor; a malformed one is refused instead. */
  predicate After(py: Python, s: string, x: Row) {
    var c := DecodeCursor(py, s);
    c.Some? && AfterCursor(c.value, x)
  }

  function AfterIn(py: Python): (string, Row) -> bool {
    (s: string, x: Row) => After(py, s, x)
  }

  function Key(py: Python): Row -> string {
    (x: Row) => EncodeCursor(py, CursorOf(x))
  }

  /** What the page query selects, per cursor, from these ordered rows. */
  function Listing(py: Python, xs: seq<Row>): Source<Row, string> {
    (c: Option<string>) => Rows(xs, AfterIn(py), c)
  }

  function Database(py: Python, records: seq<Record>, q: Query): Source<Row, string> {
    Listing(py, Sort(Expand(records, q), Before))
  }

  lemma CursorsMoveForward(py: Python)
    requires Faithful(py)
    ensures Forward(AfterIn(py), Key(py))
  {
    forall s: string, a: Row, b: Row ensures Onward(AfterIn(py), Key(py), s, a, b) {
      CursorRoundTrip(py, CursorOf(a));
      BeforeIsStrict(a, a);
      if After(py, s, a) && AfterCursor(CursorOf(a), b) {
        AfterIsTransitive(DecodeCursor(py, s).value, a, b);
      }
    }
  }

  lemma CursorFollowsOrder(py: Python, xs: seq<Row>)
    requires Faithful(py) && Ordered(xs, Before)
    ensures Follows(Listing(py, xs), Key(py), xs)
  {
    forall i | 0 <= i < |xs| ensures FollowsAt(Listing(py, xs), Key(py), xs, i) {
      CursorRoundTrip(py, CursorOf(xs[i]));
      forall j | 0 <= j < |xs| ensures After(py, EncodeCursor(py, CursorOf(xs[i])), xs[j]) <==> i < j {
        assert AfterCursor(CursorOf(xs[i]), xs[j]) <==> Before(xs[i], xs[j]);
        BeforeIsStrict(xs[i], xs[j]);
        assert j < i ==> Before(xs[j], xs[i]);
      }
      RowsAfter(xs, AfterIn(py), Key(py), i);
    }
  }

  /** Following `next_cursor` to the end, with any positive limits, gives exactly the sorted
      two-vendor set: each row once. */
  lemma UsageWalkIsWhole(py: Python, records: seq<Record>, q: Query, limits: nat -> nat)
    requires Faithful(py) && UniqueIds(records) && Positive(limits)
    ensures Shrinks(Database(py, records, q), Key(py))
    ensures var walked := Walk(Database(py, records, q), Key(py), None, limits, 0);
            walked == Sort(Expand(records, q), Before) && Ordered(walked, Before)
            && multiset(walked) == multiset(Expand(records, q))
  {
    var xs := Sort(Expand(records, q), Before);
    SortedListing(records, q);
    SortIsPermutation(Expand(records, q), Before);
    CursorsMoveForward(py);
    ForwardShrinks(xs, AfterIn(py), Key(py));
    CursorFollowsOrder(py, xs);
    WalkIsWhole(Database(py, records, q), Key(py), limits);
  }

  // ---- Totals ----

  function Add(a: Tokens, b: Tokens): Tokens {
    Tokens(a.input + b.input, a.output + b.output, a.cacheRead + b.cacheRead,
           a.cacheCreation + b.cacheCreation, a.webSearch + b.webSearch)
  }

  /** SUM over each counter. */
  function Total(xs: seq<Row>): Tokens {
    if xs == [] then Tokens(0, 0, 0, 0, 0) else Add(xs[0].tokens, Total(xs[1..]))
  }

  function Sum(xs: seq<Row>, count: Tokens -> int): int {
    if xs == [] then 0 else count(xs[0].tokens) + Sum(xs[1..], count)
  }

  /** Each total is the sum of its own counter. */
  lemma {:induction false} TotalIsSum(xs: seq<Row>)
    ensures Total(xs).input == Sum(xs, (t: Tokens) => t.input)
    ensures Total(xs).output == Sum(xs, (t: Tokens) => t.output)
    ensures Total(xs).cacheRead == Sum(xs, (t: Tokens) => t.cacheRead)
    ensures Total(xs).cacheCreation == Sum(xs, (t: Tokens) => t.cacheCreation)
    ensures Total(xs).webSearch == Sum(xs, (t: Tokens) => t.webSearch)
  {
    if xs != [] {
      TotalIsSum(xs[1..]);
    }
  }

  lemma {:induction false} TotalOfInsert(x: Row, xs: seq<Row>)
    ensures Total(Place(x, xs, Before)) == Add(x.tokens, Total(xs))
  {
    if xs != [] && !Before(x, xs[0]) {
      TotalOfInsert(x, xs[1..]);
    }
  }

  lemma {:induction false} TotalOfSort(xs: seq<Row>)
    ensures Total(Sort(xs, Before)) == Total(xs) && |Sort(xs, Before)| == |xs|
  {
    if xs != [] {
      TotalOfSort(xs[1..]);
      TotalOfInsert(xs[0], Sort(xs[1..], Before));
      InsertLength(xs[0], Sort(xs[1..], Before));
    }
  }

  lemma {:induction false} InsertLength(x: Row, xs: seq<Row>)
    ensures |Place(x, xs, Before)| == |xs| + 1
  {
    if xs != [] && !Before(x, xs[0]) {
      InsertLength(x, xs[1..]);
    }
  }

  /** The pages of any walk add up to the totals every response carries. */
  lemma PagesAddUpToTotals(py: Python, records: seq<Record>, q: Query, limits: nat -> nat)
    requires Faithful(py) && UniqueIds(records) && Positive(limits)
    requires Shrinks(Database(py, records, q), Key(py))
    ensures var walked := Walk(Database(py, records, q), Key(py), None, limits, 0);
            && Total(walked) == Total(Expand(records, q)) && |walked| == |Expand(records, q)|
            && Total(walked).input == Sum(walked, (t: Tokens) => t.input)
            && Total(walked).output == Sum(walked, (t: Tokens) => t.output)
            && Total(walked).cacheRead == Sum(walked, (t: Tokens) => t.cacheRead)
            && Total(walked).cacheCreation == Sum(walked, (t: Tokens) => t.cacheCreation)
            && Total(walked).webSearch == Sum(walked, (t: Tokens) => t.webSearch)
  {
    TotalIsSum(Walk(Database(py, records, q), Key(py), None, limits, 0));
    UsageWalkIsWhole(py, records, q, limits);
    TotalOfSort(Expand(records, q));
  }

  // ---- Supersession ----

  /** On each UTC date the surviving Anthropic rows are all per-model or all legacy, so the
      two shapes are never added together. */
  lemma SupersessionIsPerDay(records: seq<Record>, q: Query, a: Row, b: Row)
    requires a in Expand(records, q) && b in Expand(records, q)
    requires a.vendor == Anthropic && b.vendor == Anthropic && a.at / DAY == b.at / DAY
    ensures a.model.Some? <==> b.model.Some?
  {
    ExpandedRows(records, q, a);
    ExpandedRows(records, q, b);
  }

  /** No date goes blank: one with an Anthropic row lists one, when nothing is filtered. */
  lemma NoDateGoesBlank(records: seq<Record>, q: Query, x: Row) returns (y: Row)
    requires x in AllRows(records) && q.since <= x.at / DAY <= q.until && q.workspaceId == None && q.model == None
    ensures y in Expand(records, q) && y.vendor == x.vendor && y.at / DAY == x.at / DAY
  {
    y := x;
    if x.vendor == Anthropic && BrokenDown(records, x.at / DAY) {
      y :| y in AllRows(records) && y.vendor == Anthropic && y.at / DAY == x.at / DAY && y.model.Some?;
    }
    ExpandedRows(records, q, y);
  }
}
