/**
 The per-tenant hash chain kept in `telemetry_records`: reading the tip,
 inserting under the two UNIQUE constraints, and replaying the links.

 The digest is an arbitrary function of tenant, canonical bytes and previous
 digest text.  Theorems that need collision freedom ask for it by name.
 */
module Chain {
  import opened Wrappers
  import opened CanonicalRecord

  /** `compute_record_hash(tenant, canonical, prev)`, as hex text. */
  type HashFn = (string, seq<byte>, string) -> string

  const GENESIS := "GENESIS"

  /** SHA-256 of "vargate.telemetry/chain/genesis": what a first row stores as its
      previous hash.  It is never hashed. */
  const GENESIS_PREV := "0ae389ff6930e826786a461127ad27d753f9bcb816f39fdeb230e4832815a8c2"

  /** Collision free, and never the genesis word. */
  ghost predicate Ideal(h: HashFn) {
    && (forall t, b, p, t', b', p' :: h(t, b, p) == h(t', b', p') ==> t == t' && b == b' && p == p')
    && (forall t, b, p :: h(t, b, p) != GENESIS)
  }

  datatype Row = Row(
    tenant: string,
    fields: Fields,
    contentSize: Option<nat>,
    seqNo: nat,
    prevHash: string,
    selfHash: string)

  // ---- Queries ----

  /** The rows row-level security shows a tenant, in insertion order. */
  function OfTenant(rows: seq<Row>, tenant: string): (r: seq<Row>)
    ensures forall i :: 0 <= i < |r| ==> r[i].tenant == tenant && r[i] in rows
  {
    if rows == [] then []
    else
      var last := rows[|rows| - 1];
      OfTenant(rows[..|rows| - 1], tenant) + if last.tenant == tenant then [last] else []
  }

  /** `ORDER BY chain_seq DESC LIMIT 1` */
  function Tip(rows: seq<Row>): (r: Option<Row>)
    ensures r.None? <==> rows == []
    ensures r.Some? ==> r.value in rows && forall i :: 0 <= i < |rows| ==> rows[i].seqNo <= r.value.seqNo
  {
    if rows == [] then None
    else
      var last, rest := rows[|rows| - 1], Tip(rows[..|rows| - 1]);
      if rest.None? || rest.value.seqNo < last.seqNo then Some(last) else rest
  }

  function InsertBySeq(rows: seq<Row>, r: Row): seq<Row> {
    if rows == [] || rows[|rows| - 1].seqNo <= r.seqNo then rows + [r]
    else InsertBySeq(rows[..|rows| - 1], r) + [rows[|rows| - 1]]
  }

  /** `ORDER BY chain_seq ASC` */
  function OrderBySeq(rows: seq<Row>): seq<Row> {
    if rows == [] then [] else InsertBySeq(OrderBySeq(rows[..|rows| - 1]), rows[|rows| - 1])
  }

  ghost predicate BySeq(rows: seq<Row>) {
    forall i, j :: 0 <= i < j < |rows| ==> rows[i].seqNo <= rows[j].seqNo
  }

  lemma LastApart(rows: seq<Row>)
    requires rows != []
    ensures multiset(rows) == multiset(rows[..|rows| - 1]) + multiset{rows[|rows| - 1]}
  {
    assert rows == rows[..|rows| - 1] + [rows[|rows| - 1]];
  }

  lemma {:induction false} InsertBySeqAdds(rows: seq<Row>, r: Row)
    ensures multiset(InsertBySeq(rows, r)) == multiset(rows) + multiset{r}
  {
    if rows != [] && rows[|rows| - 1].seqNo > r.seqNo {
      InsertBySeqAdds(rows[..|rows| - 1], r);
      LastApart(rows);
    }
  }

  lemma InsertedAreBelow(rows: seq<Row>, r: Row, bound: nat)
    requires r.seqNo <= bound && forall i :: 0 <= i < |rows| ==> rows[i].seqNo <= bound
    ensures forall i :: 0 <= i < |InsertBySeq(rows, r)| ==> InsertBySeq(rows, r)[i].seqNo <= bound
  {
    InsertBySeqAdds(rows, r);
    var after := InsertBySeq(rows, r);
    forall i | 0 <= i < |after| ensures after[i].seqNo <= bound {
      assert after[i] in multiset(after);
      assert after[i] == r || after[i] in rows;
    }
  }

  lemma {:induction false} InsertBySeqSorts(rows: seq<Row>, r: Row)
    requires BySeq(rows)
    ensures BySeq(InsertBySeq(rows, r))
  {
    if rows != [] && rows[|rows| - 1].seqNo > r.seqNo {
      InsertBySeqSorts(rows[..|rows| - 1], r);
      InsertedAreBelow(rows[..|rows| - 1], r, rows[|rows| - 1].seqNo);
    }
  }

  /** The query returns the rows it selects, each once, by ascending number. */
  lemma {:induction false} OrderBySeqSorts(rows: seq<Row>)
    ensures BySeq(OrderBySeq(rows)) && multiset(OrderBySeq(rows)) == multiset(rows)
  {
    if rows != [] {
      var init := rows[..|rows| - 1];
      OrderBySeqSorts(init);
      InsertBySeqSorts(OrderBySeq(init), rows[|rows| - 1]);
      InsertBySeqAdds(OrderBySeq(init), rows[|rows| - 1]);
      LastApart(rows);
    }
  }

  predicate SameDedupKey(r: Row, tenant: string, f: Fields) {
    r.tenant == tenant && r.fields.sourceApi == f.sourceApi && r.fields.externalId == f.externalId
  }

  predicate SameChainSlot(r: Row, tenant: string, seqNo: nat) {
    r.tenant == tenant && r.seqNo == seqNo
  }

  predicate DedupTaken(rows: seq<Row>, tenant: string, f: Fields) {
    exists i :: 0 <= i < |rows| && SameDedupKey(rows[i], tenant, f)
  }

  predicate SlotTaken(rows: seq<Row>, tenant: string, seqNo: nat) {
    exists i :: 0 <= i < |rows| && SameChainSlot(rows[i], tenant, seqNo)
  }

  // ---- Append ----

  /** What the transaction remembers between reading the tip and inserting. */
  datatype TipRead = TipRead(seqNo: nat, prevHash: string, prevText: string)

  function ReadTip(rows: seq<Row>, tenant: string): TipRead {
    match Tip(OfTenant(rows, tenant))
    case None => TipRead(1, GENESIS_PREV, GENESIS)
    case Some(tip) => TipRead(tip.seqNo + 1, tip.selfHash, tip.selfHash)
  }

  function NewRow(h: HashFn, tip: TipRead, tenant: string, f: Fields, size: Option<nat>): Row {
    Row(tenant, f, size, tip.seqNo, tip.prevHash, h(tenant, CanonicalBytes(f), tip.prevText))
  }

  /** INSERT under `uq_telemetry_records_dedup` and `uq_telemetry_records_chain`;
      None is the IntegrityError. */
  function InsertRow(rows: seq<Row>, r: Row): Option<seq<Row>> {
    if DedupTaken(rows, r.tenant, r.fields) || SlotTaken(rows, r.tenant, r.seqNo) then None
    else Some(rows + [r])
  }

  // ---- Verify ----

  datatype ChainRecord = ChainRecord(canonical: seq<byte>, prevHash: string, recordHash: string)

  /** `_row_to_chain_record` */
  function ToChainRecord(r: Row): ChainRecord {
    ChainRecord(CanonicalBytes(r.fields), if r.seqNo == 1 then GENESIS else r.prevHash, r.selfHash)
  }

  function ToChainRecords(rows: seq<Row>): (rs: seq<ChainRecord>)
    ensures |rs| == |rows|
    ensures forall i :: 0 <= i < |rs| ==> rs[i] == ToChainRecord(rows[i])
  {
    seq(|rows|, i requires 0 <= i < |rows| => ToChainRecord(rows[i]))
  }

  datatype VerifyResult = VerifyResult(valid: bool, recordCount: nat, failedAt: Option<nat>)

  /** `verify_record_chain`: each record names its predecessor's hash and rehashes to its own. */
  function VerifyFrom(h: HashFn, tenant: string, rs: seq<ChainRecord>, i: nat, expected: string): VerifyResult
    requires i <= |rs|
    decreases |rs| - i
  {
    if i == |rs| then VerifyResult(true, i, None)
    else if rs[i].prevHash != expected || h(tenant, rs[i].canonical, rs[i].prevHash) != rs[i].recordHash then
      VerifyResult(false, i, Some(i))
    else VerifyFrom(h, tenant, rs, i + 1, rs[i].recordHash)
  }

  /** The rows as `verify_telemetry_chain` walks them: all of the tenant's, by ascending number. */
  function ChainOf(rows: seq<Row>, tenant: string): (r: seq<Row>)
    ensures BySeq(r) && multiset(r) == multiset(OfTenant(rows, tenant))
  {
    OrderBySeqSorts(OfTenant(rows, tenant));
    OrderBySeq(OfTenant(rows, tenant))
  }

  /** `verify_telemetry_chain` for a non-empty tenant id. */
  function Verify(h: HashFn, rows: seq<Row>, tenant: string): VerifyResult {
    VerifyFrom(h, tenant, ToChainRecords(ChainOf(rows, tenant)), 0, GENESIS)
  }

  // ---- What acceptance means ----

  /** The hash text a record must name: its predecessor's, or the genesis word. */
  function Before(rs: seq<ChainRecord>, i: nat): string
    requires i <= |rs|
  {
    if i == 0 then GENESIS else rs[i - 1].recordHash
  }

  predicate Link(h: HashFn, tenant: string, rs: seq<ChainRecord>, i: nat)
    requires i < |rs|
  {
    rs[i].prevHash == Before(rs, i) && rs[i].recordHash == h(tenant, rs[i].canonical, rs[i].prevHash)
  }

  ghost predicate Linked(h: HashFn, tenant: string, rs: seq<ChainRecord>) {
    forall i :: 0 <= i < |rs| ==> Link(h, tenant, rs, i)
  }

  /** Link `n` is broken, and none from `i` up to it is. */
  ghost predicate FirstBreak(h: HashFn, tenant: string, rs: seq<ChainRecord>, i: nat, n: nat) {
    i <= n < |rs| && !Link(h, tenant, rs, n) && forall j :: i <= j < n ==> Link(h, tenant, rs, j)
  }

  lemma {:induction false} VerifyFromMeansLinked(h: HashFn, tenant: string, rs: seq<ChainRecord>, i: nat)
    requires i <= |rs|
    ensures var v := VerifyFrom(h, tenant, rs, i, Before(rs, i));
            && (v.valid <==> forall j :: i <= j < |rs| ==> Link(h, tenant, rs, j))
            && (v.valid ==> v.recordCount == |rs| && v.failedAt == None)
            && (!v.valid ==>
                  v.failedAt == Some(v.recordCount) && FirstBreak(h, tenant, rs, i, v.recordCount))
    decreases |rs| - i
  {
    if i < |rs| {
      VerifyFromMeansLinked(h, tenant, rs, i + 1);
      assert Before(rs, i + 1) == rs[i].recordHash;
      assert Link(h, tenant, rs, i) <==>
        !(rs[i].prevHash != Before(rs, i) || h(tenant, rs[i].canonical, rs[i].prevHash) != rs[i].recordHash);
    }
  }

  /** Verification accepts exactly the linked chains and counts them; otherwise it reports the
      first broken link, and how many records came before it. */
  lemma VerifyAcceptsLinked(h: HashFn, rows: seq<Row>, tenant: string)
    ensures Verify(h, rows, tenant).valid <==> Linked(h, tenant, ToChainRecords(ChainOf(rows, tenant)))
    ensures Verify(h, rows, tenant).valid ==>
              Verify(h, rows, tenant) == VerifyResult(true, |ChainOf(rows, tenant)|, None)
    ensures !Verify(h, rows, tenant).valid ==>
              var v, rs := Verify(h, rows, tenant), ToChainRecords(ChainOf(rows, tenant));
              && v.failedAt == Some(v.recordCount) && v.recordCount < |rs| && !Link(h, tenant, rs, v.recordCount)
              && forall j :: 0 <= j < v.recordCount ==> Link(h, tenant, rs, j)
  {
    VerifyFromMeansLinked(h, tenant, ToChainRecords(ChainOf(rows, tenant)), 0);
  }

  // ---- Tamper evidence ----

  /** The tip hash text of an ordered chain. */
  function TipHash(chain: seq<Row>): string {
    if chain == [] then GENESIS else chain[|chain| - 1].selfHash
  }

  lemma NotGenesis(h: HashFn, tenant: string, rs: seq<ChainRecord>, m: nat)
    requires Ideal(h) && Linked(h, tenant, rs) && m <= |rs|
    ensures Before(rs, m) == GENESIS <==> m == 0
  {
    if m > 0 {
      assert Link(h, tenant, rs, m - 1);
    }
  }

  /** Collision freedom pins two linked chains with the same last hash, from the tip down. */
  lemma {:induction false} SameTipSameHistory(h: HashFn, tenant: string, rs: seq<ChainRecord>, m: nat,
                                              ss: seq<ChainRecord>, n: nat)
    requires Ideal(h)
    requires Linked(h, tenant, rs) && Linked(h, tenant, ss)
    requires m <= |rs| && n <= |ss| && Before(rs, m) == Before(ss, n)
    ensures m == n && forall i :: 0 <= i < m ==> rs[i] == ss[i]
    decreases m
  {
    NotGenesis(h, tenant, rs, m);
    NotGenesis(h, tenant, ss, n);
    if m > 0 && n > 0 {
      assert Link(h, tenant, rs, m - 1) && Link(h, tenant, ss, n - 1);
      assert rs[m - 1] == ss[n - 1];
      SameTipSameHistory(h, tenant, rs, m - 1, ss, n - 1);
    }
  }

  ghost predicate SameRecords(c: seq<Row>, d: seq<Row>) {
    |c| == |d| && forall i :: 0 <= i < |c| ==> SameFields(c[i].fields, d[i].fields)
  }

  lemma SameTipSameRecords(h: HashFn, tenant: string, c: seq<Row>, d: seq<Row>)
    requires Ideal(h)
    requires Linked(h, tenant, ToChainRecords(c)) && Linked(h, tenant, ToChainRecords(d))
    requires TipHash(c) == TipHash(d)
    ensures SameRecords(c, d)
  {
    var rs, ss := ToChainRecords(c), ToChainRecords(d);
    SameTipSameHistory(h, tenant, rs, |c|, ss, |d|);
    forall i | 0 <= i < |c| ensures SameFields(c[i].fields, d[i].fields) {
      assert rs[i] == ss[i];
      CanonicalBytesIdentifyFields(c[i].fields, d[i].fields);
    }
  }

  lemma SameRecordsSameTipHash(h: HashFn, tenant: string, c: seq<Row>, d: seq<Row>)
    requires Linked(h, tenant, ToChainRecords(c)) && Linked(h, tenant, ToChainRecords(d))
    requires SameRecords(c, d)
    ensures TipHash(c) == TipHash(d)
  {
    var rs, ss := ToChainRecords(c), ToChainRecords(d);
    forall i | 0 <= i < |c| ensures rs[i].canonical == ss[i].canonical {
      CanonicalBytesIdentifyFields(c[i].fields, d[i].fields);
    }
    SameRecordsSameTip(h, tenant, rs, ss, |c|);
  }

  /** Two accepted chains of a tenant have the same tip hash exactly when they hold the
      same records: as many, and equal in every hashed column.  An edit, insertion,
      removal or reordering that keeps the tip is therefore not accepted, and cutting
      the tail changes the tip. */
  lemma TamperEvidence(h: HashFn, tenant: string, before: seq<Row>, after: seq<Row>)
    requires Ideal(h)
    requires Verify(h, before, tenant).valid && Verify(h, after, tenant).valid
    ensures TipHash(ChainOf(before, tenant)) == TipHash(ChainOf(after, tenant))
       <==> SameRecords(ChainOf(before, tenant), ChainOf(after, tenant))
  {
    var c, d := ChainOf(before, tenant), ChainOf(after, tenant);
    VerifyAcceptsLinked(h, before, tenant);
    VerifyAcceptsLinked(h, after, tenant);
    if TipHash(c) == TipHash(d) {
      SameTipSameRecords(h, tenant, c, d);
    } else if SameRecords(c, d) {
      SameRecordsSameTipHash(h, tenant, c, d);
    }
  }

  lemma {:induction false} SameRecordsSameTip(h: HashFn, tenant: string, rs: seq<ChainRecord>, ss: seq<ChainRecord>,
                                              n: nat)
    requires Linked(h, tenant, rs) && Linked(h, tenant, ss)
    requires n <= |rs| && n <= |ss|
    requires forall i :: 0 <= i < n ==> rs[i].canonical == ss[i].canonical
    ensures Before(rs, n) == Before(ss, n)
  {
    if n > 0 {
      SameRecordsSameTip(h, tenant, rs, ss, n - 1);
      assert Link(h, tenant, rs, n - 1) && Link(h, tenant, ss, n - 1);
    }
  }

  lemma FirstBreakIsReported(h: HashFn, rows: seq<Row>, tenant: string, n: nat)
    requires FirstBreak(h, tenant, ToChainRecords(ChainOf(rows, tenant)), 0, n)
    ensures Verify(h, rows, tenant) == VerifyResult(false, n, Some(n))
  {
    VerifyAcceptsLinked(h, rows, tenant);
  }

  lemma EditBreaksLink(h: HashFn, tenant: string, rs: seq<ChainRecord>, ss: seq<ChainRecord>, k: nat)
    requires Ideal(h) && Linked(h, tenant, rs) && k < |rs| == |ss|
    requires forall j :: 0 <= j < k ==> ss[j] == rs[j]
    requires ss[k].canonical != rs[k].canonical && ss[k].recordHash == rs[k].recordHash
    ensures FirstBreak(h, tenant, ss, 0, k)
  {
    assert Link(h, tenant, rs, k);
    forall j | 0 <= j < k ensures Link(h, tenant, ss, j) {
      assert Link(h, tenant, rs, j);
    }
  }

  /** Rewriting hashed columns of the `k`-th record of an accepted chain, and nothing else, is
      reported at that record. */
  lemma EditIsLocated(h: HashFn, tenant: string, before: seq<Row>, after: seq<Row>, k: nat, f: Fields)
    requires Ideal(h) && Verify(h, before, tenant).valid && k < |ChainOf(before, tenant)|
    requires ChainOf(after, tenant) == ChainOf(before, tenant)[k := ChainOf(before, tenant)[k].(fields := f)]
    requires !SameFields(f, ChainOf(before, tenant)[k].fields)
    ensures Verify(h, after, tenant) == VerifyResult(false, k, Some(k))
  {
    var rs, ss := ToChainRecords(ChainOf(before, tenant)), ToChainRecords(ChainOf(after, tenant));
    VerifyAcceptsLinked(h, before, tenant);
    CanonicalBytesIdentifyFields(f, ChainOf(before, tenant)[k].fields);
    EditBreaksLink(h, tenant, rs, ss, k);
    FirstBreakIsReported(h, after, tenant, k);
  }

  /** What the chain leaves free: sizes, the first row's stored previous hash, and the
      sequence numbers themselves as long as their order and the first one stay. */
  ghost predicate SameButUnbound(c: seq<Row>, d: seq<Row>) {
    && |c| == |d|
    && forall i :: 0 <= i < |c| ==>
         && d[i].fields == c[i].fields && d[i].selfHash == c[i].selfHash
         && (c[i].seqNo == 1 <==> d[i].seqNo == 1)
         && (c[i].seqNo != 1 ==> d[i].prevHash == c[i].prevHash)
  }

  lemma UnboundColumnsStayAccepted(h: HashFn, tenant: string, before: seq<Row>, after: seq<Row>)
    requires SameButUnbound(ChainOf(before, tenant), ChainOf(after, tenant))
    ensures Verify(h, before, tenant) == Verify(h, after, tenant)
  {
    assert ToChainRecords(ChainOf(before, tenant)) == ToChainRecords(ChainOf(after, tenant));
  }

  // ---- The invariant every append keeps ----

  /** Row `i` is what an append onto the rows before it creates. */
  predicate RowLink(h: HashFn, tenant: string, chain: seq<Row>, i: nat)
    requires i < |chain|
  {
    && chain[i].seqNo == i + 1
    && chain[i].prevHash == (if i == 0 then GENESIS_PREV else chain[i - 1].selfHash)
    && chain[i].selfHash
       == h(tenant, CanonicalBytes(chain[i].fields), if i == 0 then GENESIS else chain[i - 1].selfHash)
  }

  ghost predicate WellChained(h: HashFn, tenant: string, chain: seq<Row>) {
    forall i :: 0 <= i < |chain| ==> RowLink(h, tenant, chain, i)
  }

  lemma WellChainedAppend(h: HashFn, tenant: string, chain: seq<Row>, f: Fields, size: Option<nat>)
    requires WellChained(h, tenant, chain)
    ensures WellChained(h, tenant, chain + [NewRow(h, ExpectedTip(chain), tenant, f, size)])
  {
    var longer := chain + [NewRow(h, ExpectedTip(chain), tenant, f, size)];
    forall i | 0 <= i < |longer| ensures RowLink(h, tenant, longer, i) {
      assert i < |chain| ==> RowLink(h, tenant, chain, i);
    }
  }

  ghost predicate DedupUnique(rows: seq<Row>) {
    forall i, j :: 0 <= i < j < |rows| ==> !SameDedupKey(rows[i], rows[j].tenant, rows[j].fields)
  }

  ghost predicate TableInv(h: HashFn, rows: seq<Row>) {
    && (forall t :: WellChained(h, t, OfTenant(rows, t)))
    && DedupUnique(rows)
  }

  lemma OfTenantAppend(rows: seq<Row>, r: Row, tenant: string)
    ensures OfTenant(rows + [r], tenant) == OfTenant(rows, tenant) + if r.tenant == tenant then [r] else []
  {
    assert (rows + [r])[..|rows|] == rows;
  }

  lemma {:induction false} OfTenantComplete(rows: seq<Row>, tenant: string)
    ensures forall i :: 0 <= i < |rows| && rows[i].tenant == tenant ==> rows[i] in OfTenant(rows, tenant)
  {
    if rows != [] {
      OfTenantComplete(rows[..|rows| - 1], tenant);
      forall i | 0 <= i < |rows| && rows[i].tenant == tenant ensures rows[i] in OfTenant(rows, tenant) {
        if i < |rows| - 1 {
          assert rows[i] == rows[..|rows| - 1][i];
        }
      }
    }
  }

  lemma {:induction false} AscendingIsOrdered(rows: seq<Row>)
    requires forall i, j :: 0 <= i < j < |rows| ==> rows[i].seqNo < rows[j].seqNo
    ensures OrderBySeq(rows) == rows
  {
    if rows != [] {
      AscendingIsOrdered(rows[..|rows| - 1]);
    }
  }

  lemma WellChainedAscends(h: HashFn, tenant: string, chain: seq<Row>)
    requires WellChained(h, tenant, chain)
    ensures forall i :: 0 <= i < |chain| ==> chain[i].seqNo == i + 1
  {
    forall i | 0 <= i < |chain| ensures chain[i].seqNo == i + 1 {
      assert RowLink(h, tenant, chain, i);
    }
  }

  /** A well-chained tenant verifies, with its row count. */
  lemma WellChainedVerifies(h: HashFn, rows: seq<Row>, tenant: string)
    requires WellChained(h, tenant, OfTenant(rows, tenant))
    ensures ChainOf(rows, tenant) == OfTenant(rows, tenant)
    ensures Verify(h, rows, tenant) == VerifyResult(true, |OfTenant(rows, tenant)|, None)
  {
    var chain := OfTenant(rows, tenant);
    WellChainedAscends(h, tenant, chain);
    AscendingIsOrdered(chain);
    var rs := ToChainRecords(chain);
    forall i | 0 <= i < |rs| ensures Link(h, tenant, rs, i) {
      assert RowLink(h, tenant, chain, i);
    }
    VerifyFromMeansLinked(h, tenant, rs, 0);
  }

  /** Reading the tip of a well-chained tenant gives its last row. */
  lemma WellChainedTip(h: HashFn, rows: seq<Row>, tenant: string)
    requires WellChained(h, tenant, OfTenant(rows, tenant))
    ensures ReadTip(rows, tenant) == ExpectedTip(OfTenant(rows, tenant))
  {
    var chain := OfTenant(rows, tenant);
    WellChainedAscends(h, tenant, chain);
    if chain != [] {
      var tip := Tip(chain).value;
      var k :| 0 <= k < |chain| && chain[k] == tip;
      assert chain[|chain| - 1].seqNo <= tip.seqNo;
    }
  }

  /** What a writer that reads a well-chained tenant's tip gets. */
  function ExpectedTip(chain: seq<Row>): TipRead {
    if chain == [] then TipRead(1, GENESIS_PREV, GENESIS)
    else TipRead(|chain| + 1, chain[|chain| - 1].selfHash, chain[|chain| - 1].selfHash)
  }

  lemma SlotsAreContiguous(h: HashFn, rows: seq<Row>, tenant: string, seqNo: nat)
    requires TableInv(h, rows)
    ensures SlotTaken(rows, tenant, seqNo) <==> 1 <= seqNo <= |OfTenant(rows, tenant)|
  {
    var chain := OfTenant(rows, tenant);
    WellChainedAscends(h, tenant, chain);
    OfTenantComplete(rows, tenant);
    if SlotTaken(rows, tenant, seqNo) {
      var i :| 0 <= i < |rows| && SameChainSlot(rows[i], tenant, seqNo);
      var k :| 0 <= k < |chain| && chain[k] == rows[i];
    }
    if 1 <= seqNo <= |chain| {
      assert chain[seqNo - 1] in rows;
      var i :| 0 <= i < |rows| && rows[i] == chain[seqNo - 1];
      assert SameChainSlot(rows[i], tenant, seqNo);
    }
  }

  /** A tip read earlier and still remembered: it matches a prefix of the tenant's chain. */
  ghost predicate TipWasRead(rows: seq<Row>, tenant: string, tip: TipRead) {
    && 1 <= tip.seqNo <= |OfTenant(rows, tenant)| + 1
    && tip == ExpectedTip(OfTenant(rows, tenant)[..tip.seqNo - 1])
  }

  lemma InsertKeepsChains(h: HashFn, rows: seq<Row>, row: Row)
    requires forall t :: WellChained(h, t, OfTenant(rows, t))
    requires row == NewRow(h, ExpectedTip(OfTenant(rows, row.tenant)), row.tenant, row.fields, row.contentSize)
    ensures forall t :: WellChained(h, t, OfTenant(rows + [row], t))
  {
    forall t ensures WellChained(h, t, OfTenant(rows + [row], t)) {
      InsertKeepsChain(h, rows, row, t);
    }
  }

  lemma InsertKeepsChain(h: HashFn, rows: seq<Row>, row: Row, t: string)
    requires WellChained(h, t, OfTenant(rows, t))
    requires row == NewRow(h, ExpectedTip(OfTenant(rows, row.tenant)), row.tenant, row.fields, row.contentSize)
    ensures WellChained(h, t, OfTenant(rows + [row], t))
  {
    OfTenantAppend(rows, row, t);
    if t == row.tenant {
      WellChainedAppend(h, t, OfTenant(rows, t), row.fields, row.contentSize);
    } else {
      assert OfTenant(rows + [row], t) == OfTenant(rows, t);
    }
  }

  lemma InsertKeepsDedup(rows: seq<Row>, row: Row)
    requires DedupUnique(rows) && !DedupTaken(rows, row.tenant, row.fields)
    ensures DedupUnique(rows + [row])
  {
  }

  /** Inserting with a remembered tip keeps the table's invariant.  It raises exactly when
      the record is already there, or when the tenant's chain grew since the tip was read. */
  lemma InsertOutcome(h: HashFn, rows: seq<Row>, tenant: string, tip: TipRead, f: Fields, size: Option<nat>)
    requires TableInv(h, rows) && TipWasRead(rows, tenant, tip)
    ensures var r := InsertRow(rows, NewRow(h, tip, tenant, f, size));
            && (r.None? <==> DedupTaken(rows, tenant, f) || |OfTenant(rows, tenant)| >= tip.seqNo)
            && (r.Some? ==> TableInv(h, r.value) && r.value == rows + [NewRow(h, tip, tenant, f, size)])
  {
    var row := NewRow(h, tip, tenant, f, size);
    SlotsAreContiguous(h, rows, tenant, tip.seqNo);
    if InsertRow(rows, row).Some? {
      var chain := OfTenant(rows, tenant);
      assert chain[..tip.seqNo - 1] == chain;
      InsertKeepsChains(h, rows, row);
      InsertKeepsDedup(rows, row);
    }
  }

  /** Rows committed by others never disturb a remembered tip. */
  lemma TipReadSurvives(rows: seq<Row>, r: Row, tenant: string, tip: TipRead)
    requires TipWasRead(rows, tenant, tip)
    ensures TipWasRead(rows + [r], tenant, tip)
  {
    OfTenantAppend(rows, r, tenant);
    var c, d := OfTenant(rows, tenant), OfTenant(rows + [r], tenant);
    assert d[..tip.seqNo - 1] == c[..tip.seqNo - 1];
  }

  lemma FreshTipWasRead(h: HashFn, rows: seq<Row>, tenant: string)
    requires TableInv(h, rows)
    ensures TipWasRead(rows, tenant, ReadTip(rows, tenant))
  {
    WellChainedTip(h, rows, tenant);
    var chain := OfTenant(rows, tenant);
    assert chain[..|chain|] == chain;
  }

  // ---- Any number of concurrent writers ----

  datatype Writer =
    | Ready(tenant: string, fields: Fields, size: Option<nat>)
    | HasTip(tenant: string, fields: Fields, size: Option<nat>, tip: TipRead)
    | Committed(row: Row)
    | Raised(tenant: string, fields: Fields)

  datatype Db = Db(rows: seq<Row>, writers: map<nat, Writer>)

  datatype Event =
    | Begin(w: nat, tenant: string, fields: Fields, size: Option<nat>)
    | Read(w: nat)
    | Insert(w: nat)

  /** One step of one transaction; a step a writer is not ready for does nothing. */
  function Step(h: HashFn, db: Db, e: Event): Db {
    match e
    case Begin(w, tenant, f, size) =>
      if w in db.writers then db else db.(writers := db.writers[w := Ready(tenant, f, size)])
    case Read(w) =>
      if w in db.writers && db.writers[w].Ready? then
        var q := db.writers[w];
        db.(writers := db.writers[w := HasTip(q.tenant, q.fields, q.size, ReadTip(db.rows, q.tenant))])
      else db
    case Insert(w) =>
      if w in db.writers && db.writers[w].HasTip? then
        var q := db.writers[w];
        var row := NewRow(h, q.tip, q.tenant, q.fields, q.size);
        match InsertRow(db.rows, row)
        case None => db.(writers := db.writers[w := Raised(q.tenant, q.fields)])
        case Some(rows) => Db(rows, db.writers[w := Committed(row)])
      else db
  }

  function Run(h: HashFn, events: seq<Event>): Db {
    if events == [] then Db([], map[])
    else Step(h, Run(h, events[..|events| - 1]), events[|events| - 1])
  }

  ghost predicate DbInv(h: HashFn, db: Db) {
    && TableInv(h, db.rows)
    && (forall w :: w in db.writers && db.writers[w].HasTip? ==>
          TipWasRead(db.rows, db.writers[w].tenant, db.writers[w].tip))
    && (forall w :: w in db.writers && db.writers[w].Committed? ==> db.writers[w].row in db.rows)
  }

  lemma CommitKeepsInv(h: HashFn, db: Db, w: nat, row: Row)
    requires DbInv(h, db) && TableInv(h, db.rows + [row])
    ensures DbInv(h, Db(db.rows + [row], db.writers[w := Committed(row)]))
  {
    var after := Db(db.rows + [row], db.writers[w := Committed(row)]);
    forall v | v in after.writers && after.writers[v].HasTip?
      ensures TipWasRead(after.rows, after.writers[v].tenant, after.writers[v].tip)
    {
      TipReadSurvives(db.rows, row, db.writers[v].tenant, db.writers[v].tip);
    }
  }

  lemma InsertKeepsInv(h: HashFn, db: Db, w: nat)
    requires DbInv(h, db) && w in db.writers && db.writers[w].HasTip?
    ensures DbInv(h, Step(h, db, Insert(w)))
    ensures db.rows <= Step(h, db, Insert(w)).rows
  {
    var q := db.writers[w];
    var row := NewRow(h, q.tip, q.tenant, q.fields, q.size);
    InsertOutcome(h, db.rows, q.tenant, q.tip, q.fields, q.size);
    if InsertRow(db.rows, row).Some? {
      CommitKeepsInv(h, db, w, row);
    }
  }

  lemma StepKeepsInv(h: HashFn, db: Db, e: Event)
    requires DbInv(h, db)
    ensures DbInv(h, Step(h, db, e))
    ensures db.rows <= Step(h, db, e).rows
  {
    if e.Read? && e.w in db.writers && db.writers[e.w].Ready? {
      FreshTipWasRead(h, db.rows, db.writers[e.w].tenant);
    } else if e.Insert? && e.w in db.writers && db.writers[e.w].HasTip? {
      InsertKeepsInv(h, db, e.w);
    }
  }

  lemma {:induction false} RunKeepsInv(h: HashFn, events: seq<Event>)
    ensures DbInv(h, Run(h, events))
  {
    if events != [] {
      RunKeepsInv(h, events[..|events| - 1]);
      StepKeepsInv(h, Run(h, events[..|events| - 1]), events[|events| - 1]);
    }
  }

  /** Under every interleaving: each tenant's sequence numbers are exactly 1..n, every link
      holds, and verification reports a valid chain of n records. */
  lemma ConcurrentAppends(h: HashFn, events: seq<Event>, tenant: string)
    ensures var rows := Run(h, events).rows;
            var chain := OfTenant(rows, tenant);
            && WellChained(h, tenant, chain)
            && (forall n: nat :: SlotTaken(rows, tenant, n) <==> 1 <= n <= |chain|)
            && Verify(h, rows, tenant) == VerifyResult(true, |chain|, None)
  {
    var rows := Run(h, events).rows;
    RunKeepsInv(h, events);
    assert WellChained(h, tenant, OfTenant(rows, tenant));
    WellChainedVerifies(h, rows, tenant);
    forall n: nat ensures SlotTaken(rows, tenant, n) <==> 1 <= n <= |OfTenant(rows, tenant)| {
      SlotsAreContiguous(h, rows, tenant, n);
    }
  }

  /** When the IntegrityError of a reachable state means "already there": only if no other
      row of the tenant was committed after the tip was read. */
  lemma RaisedMeansPresentOrRaced(h: HashFn, events: seq<Event>, w: nat)
    requires w in Run(h, events).writers && Run(h, events).writers[w].HasTip?
    ensures var db := Run(h, events);
            var q := db.writers[w];
            Step(h, db, Insert(w)).writers[w].Raised? <==>
            DedupTaken(db.rows, q.tenant, q.fields) || |OfTenant(db.rows, q.tenant)| >= q.tip.seqNo
  {
    var db := Run(h, events);
    var q := db.writers[w];
    RunKeepsInv(h, events);
    InsertOutcome(h, db.rows, q.tenant, q.tip, q.fields, q.size);
  }

  lemma BothBegin(h: HashFn, tenant: string, f: Fields, g: Fields)
    ensures Run(h, [Begin(0, tenant, f, None)] + [Begin(1, tenant, g, None)])
         == Db([], map[0 := Ready(tenant, f, None), 1 := Ready(tenant, g, None)])
  {
    var e := [Begin(0, tenant, f, None)];
    assert [] + e == e;
    RunMore(h, [], e[0]);
    RunMore(h, e, Begin(1, tenant, g, None));
  }

  lemma BothReadGenesis(h: HashFn, tenant: string, f: Fields, g: Fields)
    ensures Run(h, [Begin(0, tenant, f, None)] + [Begin(1, tenant, g, None)] + [Read(0)] + [Read(1)])
         == Db([], map[0 := HasTip(tenant, f, None, ExpectedTip([])), 1 := HasTip(tenant, g, None, ExpectedTip([]))])
  {
    var begun := [Begin(0, tenant, f, None)] + [Begin(1, tenant, g, None)];
    BothBegin(h, tenant, f, g);
    RunMore(h, begun, Read(0));
    RunMore(h, begun + [Read(0)], Read(1));
    assert OfTenant([], tenant) == [];
  }

  lemma FirstInsertWins(h: HashFn, tenant: string, f: Fields, g: Fields)
    ensures Step(h, Db([], map[0 := HasTip(tenant, f, None, ExpectedTip([])),
                               1 := HasTip(tenant, g, None, ExpectedTip([]))]), Insert(0))
         == Db([NewRow(h, ExpectedTip([]), tenant, f, None)],
               map[0 := Committed(NewRow(h, ExpectedTip([]), tenant, f, None)),
                   1 := HasTip(tenant, g, None, ExpectedTip([]))])
  {
    var row := NewRow(h, ExpectedTip([]), tenant, f, None);
    assert [] + [row] == [row];
  }

  /** Two writers of different records: the loser's IntegrityError is not a duplicate, so
      treating it as one drops its record. */
  lemma LoserIsNotADuplicate(h: HashFn, tenant: string, f: Fields, g: Fields)
    requires f.externalId != g.externalId
    ensures var db := Run(h, [Begin(0, tenant, f, None)] + [Begin(1, tenant, g, None)]
                             + [Read(0)] + [Read(1)] + [Insert(0)] + [Insert(1)]);
            1 in db.writers && db.writers[1] == Raised(tenant, g) && !DedupTaken(db.rows, tenant, g)
  {
    var begun := [Begin(0, tenant, f, None)] + [Begin(1, tenant, g, None)] + [Read(0)] + [Read(1)];
    BothReadGenesis(h, tenant, f, g);
    RunMore(h, begun, Insert(0));
    FirstInsertWins(h, tenant, f, g);
    RunMore(h, begun + [Insert(0)], Insert(1));
    assert SameChainSlot([NewRow(h, ExpectedTip([]), tenant, f, None)][0], tenant, 1);
  }

  lemma RunMore(h: HashFn, events: seq<Event>, e: Event)
    ensures Run(h, events + [e]) == Step(h, Run(h, events), e)
  {
    assert (events + [e])[..|events|] == events;
  }

  // ---- The table a single process appends to ----

  datatype AppendError = ValueError | IntegrityError

  class TelemetryTable {
    var rows: seq<Row>

    ghost predicate Valid(h: HashFn)
      reads this
    {
      TableInv(h, rows)
    }

    constructor ()
      ensures rows == []
    {
      rows := [];
    }

    /** `append_telemetry_record` with no other writer in between: it raises IntegrityError
        exactly when the record is already there, and otherwise adds the next link. */
    method Append(h: HashFn, tenant: string, f: Fields, size: Option<nat>) returns (r: Result<Row, AppendError>)
      requires Valid(h)
      modifies this
      ensures Valid(h)
      ensures r == Failure(ValueError) <==> tenant == "" || |f.contentHash| != 32
      ensures r == Failure(IntegrityError) <==>
              tenant != "" && |f.contentHash| == 32 && DedupTaken(old(rows), tenant, f)
      ensures r.Failure? ==> rows == old(rows)
      ensures r.Success? ==>
                && rows == old(rows) + [r.value]
                && r.value == NewRow(h, ExpectedTip(OfTenant(old(rows), tenant)), tenant, f, size)
    {
      if tenant == "" {
        return Failure(ValueError);
      }
      if |f.contentHash| != 32 {
        return Failure(ValueError);
      }
      var tip := ReadTip(rows, tenant);
      FreshTipWasRead(h, rows, tenant);
      InsertOutcome(h, rows, tenant, tip, f, size);
      WellChainedTip(h, rows, tenant);
      var row := NewRow(h, tip, tenant, f, size);
      match InsertRow(rows, row) {
        case None =>
          return Failure(IntegrityError);
        case Some(after) =>
          rows := after;
          return Success(row);
      }
    }
  }
}
