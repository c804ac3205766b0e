/**
 The content service of one tenant, loop by loop: deletion, shred, the chat detail view and
 the export, each against the functions of `Deletion`.
 */
module ContentArchive {
  import opened Wrappers
  import opened Strings
  import opened CanonicalRecord
  import opened Chain
  import opened Deletion
  import opened ContentViews
  import opened ContentRuns
  import opened ExportProof
  import opened Ordering
  import Seal

  // ---- What the readers return ----

  /** PII masking: the masked text and the number of findings. */
  type Detector = string -> (string, nat)

  datatype ContentMessage = ContentMessage(
    messageId: string, content: Option<string>, purged: bool, redacted: bool, findings: nat)

  datatype ChatDetail = ChatDetail(purged: bool, purgeReason: Option<string>, purgedAt: Option<string>,
                                   messages: seq<ContentMessage>)

  datatype ExportMessage = ExportMessage(messageId: string, content: Option<string>, purged: bool, redacted: bool)

  /** One entry of the dict of chats, which keeps the order of insertion. */
  datatype ExportedChat = ExportedChat(chatId: string, messages: seq<ExportMessage>)

  datatype Counts = Counts(chats: nat, messages: nat, purgedMessages: nat)

  datatype ExportModel = ExportModel(chats: seq<ExportedChat>, proof: seq<ProofRow>, counts: Counts,
                                     verification: Report, digest: string)

  /** `retrieve_content`: None stands for every exception it raises. */
  function Retrieve(tenant: string, a: Archive, ref: string): Option<string> {
    if ref in a.blobs && Readable(tenant, a, a.blobs[ref]) then Some(a.blobs[ref].text) else None
  }

  /** The text shown for a record, before masking. */
  function Plaintext(tenant: string, a: Archive, r: Row, purged: bool): Option<string> {
    if r.fields.contentRef.Some? && r.fields.contentRef.value != "" && !purged then
      Retrieve(tenant, a, r.fields.contentRef.value)
    else None
  }

  function DetailMessage(a: Archive, tenant: string, chat: string, detect: Detector, unmask: bool,
                         r: Row): ContentMessage {
    var purged := PurgedInDetail(a.rows, tenant, chat, r);
    match Plaintext(tenant, a, r, purged)
    case None => ContentMessage(r.fields.externalId, None, purged, false, 0)
    case Some(text) =>
      var (masked, n) := detect(text);
      ContentMessage(r.fields.externalId, Some(if unmask then text else masked), purged, !unmask && n > 0, n)
  }

  function ToExportMessage(a: Archive, tenant: string, detect: Detector, redact: bool, r: Row): ExportMessage {
    var purged := PurgedInExport(a.rows, tenant, r);
    match Plaintext(tenant, a, r, purged)
    case None => ExportMessage(r.fields.externalId, None, purged, false)
    case Some(text) =>
      if redact then ExportMessage(r.fields.externalId, Some(detect(text).0), purged, detect(text).1 > 0)
      else ExportMessage(r.fields.externalId, Some(text), purged, false)
  }

  predicate Opens(tenant: string, a: Archive, r: Row) {
    r.fields.contentRef.Some? && r.fields.contentRef.value != "" && Retrieve(tenant, a, r.fields.contentRef.value).Some?
  }

  /** The text of a record whose blob opens. */
  function TextOf(tenant: string, a: Archive, r: Row): string
    requires Opens(tenant, a, r)
  {
    a.blobs[r.fields.contentRef.value].text
  }

  /** The detail view of a record: nothing of a purged one, nor of one whose blob does not open; of
      any other the masked text, flagged when it hides something, or on a reveal the text itself.
      The findings are counted either way. */
  predicate DetailShows(a: Archive, tenant: string, chat: string, detect: Detector, unmask: bool, r: Row,
                        x: ContentMessage) {
    && x.messageId == r.fields.externalId && (x.purged <==> PurgedInDetail(a.rows, tenant, chat, r))
    && if x.purged || !Opens(tenant, a, r) then x.content == None && !x.redacted && x.findings == 0
       else
         var (masked, n) := detect(TextOf(tenant, a, r));
         && x.findings == n && (unmask ==> x.content == Some(TextOf(tenant, a, r)) && !x.redacted)
         && (!unmask ==> x.content == Some(masked) && (x.redacted <==> n > 0))
  }

  /** The export of a record: the same, masked if the export is to be redacted. */
  predicate ExportShows(a: Archive, tenant: string, detect: Detector, redact: bool, r: Row, x: ExportMessage) {
    && x.messageId == r.fields.externalId && (x.purged <==> PurgedInExport(a.rows, tenant, r))
    && if x.purged || !Opens(tenant, a, r) then x.content == None && !x.redacted
       else
         var (masked, n) := detect(TextOf(tenant, a, r));
         && (redact ==> x.content == Some(masked) && (x.redacted <==> n > 0))
         && (!redact ==> x.content == Some(TextOf(tenant, a, r)) && !x.redacted)
  }

  lemma ReadersShow(a: Archive, tenant: string, chat: string, detect: Detector, unmask: bool, redact: bool, r: Row)
    ensures DetailShows(a, tenant, chat, detect, unmask, r, DetailMessage(a, tenant, chat, detect, unmask, r))
    ensures ExportShows(a, tenant, detect, redact, r, ToExportMessage(a, tenant, detect, redact, r))
  {
  }

  function ToProofRow(rows: seq<Row>, tenant: string, r: Row): ProofRow
    requires ChatOf(r).Some?
  {
    ProofRow(r.fields.externalId, ChatOf(r).value, r.seqNo, r.selfHash, r.prevHash,
             HexText(r.fields.contentHash), r.fields.occurredAt, PurgedInExport(rows, tenant, r))
  }

  /** What a proof row says of its record. */
  predicate Certifies(rows: seq<Row>, tenant: string, r: Row, p: ProofRow) {
    && p.externalId == r.fields.externalId && Some(p.chatId) == ChatOf(r) && p.occurredAt == r.fields.occurredAt
    && p.seqNo == r.seqNo && p.selfHash == r.selfHash && p.prevHash == r.prevHash
    && p.contentHash == HexText(r.fields.contentHash) && (p.purged <==> PurgedInExport(rows, tenant, r))
  }

  /** Rehashing the record with the previous hash its proof row names gives the hash it names. */
  predicate Rehashes(h: HashFn, tenant: string, r: Row, p: ProofRow) {
    h(tenant, CanonicalBytes(r.fields), if p.seqNo == 1 then GENESIS else p.prevHash) == p.selfHash
  }

  /** In a table that only appends have touched, every proof row holds. */
  lemma CertifiedRehashes(h: HashFn, rows: seq<Row>, tenant: string, r: Row, p: ProofRow)
    requires TableInv(h, rows) && r in rows && r.tenant == tenant && Certifies(rows, tenant, r, p)
    ensures Rehashes(h, tenant, r, p)
  {
    var chain := OfTenant(rows, tenant);
    OfTenantComplete(rows, tenant);
    var k :| 0 <= k < |rows| && rows[k] == r;
    var i :| 0 <= i < |chain| && chain[i] == r;
    assert WellChained(h, tenant, chain) && RowLink(h, tenant, chain, i);
  }

  predicate InExport(r: Row, tenant: string, inScope: Row -> bool) {
    IsContent(r, tenant, MESSAGE) && ChatOf(r).Some? && inScope(r)
  }

  // ---- Deleted content is not shown ----

  /** After any run of clean captures, what a deletion or a shred covered is purged and yields no
      content, to the detail view or the export, whatever follows: even if its blob's removal
      failed, and even if a later capture stores under its reference again. */
  lemma CoveredYieldsNoContent(hs: Hashes, tenant: string, ops: seq<Op>, op: Op, more: seq<Op>, m: Row,
                               detect: Detector, flag: bool)
    requires CleanRun(ops) && ChatOf(m).Some?
    requires Covers(op, RunFrom(hs, tenant, EMPTY, ops).rows, tenant, m)
    ensures var a := Apply(hs, tenant, RunFrom(hs, tenant, EMPTY, ops), op);
            var b := RunFrom(hs, tenant, a, more);
            var detail := DetailMessage(b, tenant, ChatOf(m).value, detect, flag, m);
            var exported := ToExportMessage(b, tenant, detect, flag, m);
            && (TenantShred(b.rows, tenant) || HasDeletionRow(b.rows, tenant, m))
            && detail.purged && detail.content == None && exported.purged && exported.content == None
  {
    PurgedForGood(hs, tenant, ops, op, more, m);
  }

  /** And nothing else is withheld: after any run of clean captures, the detail view and the export
      show a message's content exactly when nothing covered it and its blob opens. */
  lemma ShownIffUncovered(hs: Hashes, tenant: string, ops: seq<Op>, m: Row, detect: Detector, flag: bool)
    requires CleanRun(ops) && m in RunFrom(hs, tenant, EMPTY, ops).rows && IsContent(m, tenant, MESSAGE)
        && ChatOf(m).Some?
    ensures var b := RunFrom(hs, tenant, EMPTY, ops);
            var shown := !CoveredBy(hs, tenant, ops, m) && Opens(tenant, b, m);
            && (DetailMessage(b, tenant, ChatOf(m).value, detect, flag, m).content.Some? <==> shown)
            && (ToExportMessage(b, tenant, detect, flag, m).content.Some? <==> shown)
  {
    PurgedIffCovered(hs, tenant, ops, m);
  }

  /** A run, a capture of a message with a text, and what follows. */
  datatype Capturing = Capturing(before: seq<Op>, fields: Fields, size: Option<nat>, text: string, after: seq<Op>) {
    function Upto(): seq<Op> {
      before + [Ingest(fields, size, text)]
    }

    function All(): seq<Op> {
      Upto() + after
    }
  }

  /** The capture is of a chat message with a new id and a blob, by a tenant that holds a key, and
      nothing later stores under its reference again. */
  predicate Accepted(hs: Hashes, tenant: string, c: Capturing) {
    var f, a := c.fields, RunFrom(hs, tenant, EMPTY, c.before);
    && Appendable(tenant, f) && f.sourceApi == CONTENT && f.recordType == MESSAGE
    && TextAt(f.metadata, "chat_id").Some? && f.contentRef.Some? && f.contentRef.value != ""
    && !DedupTaken(a.rows, tenant, f) && Seal.GetDek(a.vault, tenant).Success?
    && NotStoredAgain(c.after, f.contentRef.value)
  }

  /** No operation has covered the message, none has erased its blob, and the key is still the one it
      was sealed under. */
  predicate StillShown(hs: Hashes, tenant: string, c: Capturing, m: Row)
    requires c.fields.contentRef.Some?
  {
    && !CoveredBy(hs, tenant, c.All(), m)
    && !ErasedIn(hs, tenant, RunFrom(hs, tenant, EMPTY, c.Upto()), c.after, c.fields.contentRef.value)
    && Seal.GetDek(RunFrom(hs, tenant, EMPTY, c.All()).vault, tenant)
       == Seal.GetDek(RunFrom(hs, tenant, EMPTY, c.before).vault, tenant)
  }

  lemma CaptureIsStored(hs: Hashes, tenant: string, c: Capturing)
    requires Accepted(hs, tenant, c)
    ensures var a, b := RunFrom(hs, tenant, EMPTY, c.before), RunFrom(hs, tenant, EMPTY, c.Upto());
            && ArchiveInv(hs, tenant, b)
            && b.rows == a.rows + [NewRow(hs.link, ReadTip(a.rows, tenant), tenant, c.fields, c.size)]
            && c.fields.contentRef.value in b.blobs
            && b.blobs[c.fields.contentRef.value] == Blob(Seal.GetDek(a.vault, tenant).value, c.text)
  {
    var a := RunFrom(hs, tenant, EMPTY, c.before);
    EmptyInv(hs, tenant);
    RunFromKeepsInv(hs, tenant, EMPTY, c.before);
    RunFromMore(hs, tenant, EMPTY, c.before, Ingest(c.fields, c.size, c.text));
    IngestOutcome(hs, tenant, a, c.fields, c.size, c.text);
    IngestKeepsInv(hs, tenant, a, c.fields, c.size, c.text);
  }

  /** What the store answers for a captured message at the end of the run. */
  lemma CaptureOpens(hs: Hashes, tenant: string, c: Capturing)
    requires Accepted(hs, tenant, c)
    ensures var start, b := RunFrom(hs, tenant, EMPTY, c.before), RunFrom(hs, tenant, EMPTY, c.All());
            var kept := !ErasedIn(hs, tenant, RunFrom(hs, tenant, EMPTY, c.Upto()), c.after, c.fields.contentRef.value);
            Retrieve(tenant, b, c.fields.contentRef.value)
            == if kept && Seal.GetDek(b.vault, tenant) == Seal.GetDek(start.vault, tenant) then Some(c.text) else None
  {
    CaptureIsStored(hs, tenant, c);
    var a := RunFrom(hs, tenant, EMPTY, c.Upto());
    RunFromJoins(hs, tenant, EMPTY, c.Upto(), c.after);
    BlobIsKeptIffNotErased(hs, tenant, a, c.after, c.fields.contentRef.value);
  }

  /** Over any run of clean captures, the detail view and the export show what was captured, the
      very text or its masked form as asked for, exactly while no operation has covered the message
      or erased its blob and the tenant's key is the one of its capture; and nothing otherwise. */
  lemma CapturedIsShown(hs: Hashes, tenant: string, c: Capturing, detect: Detector, unmask: bool, redact: bool)
    returns (m: Row)
    requires CleanRun(c.All()) && Accepted(hs, tenant, c)
    ensures var b := RunFrom(hs, tenant, EMPTY, c.All());
            && m.fields == c.fields && m in b.rows && m !in RunFrom(hs, tenant, EMPTY, c.before).rows
            && var shown := StillShown(hs, tenant, c, m);
               var text, (masked, n) := c.text, detect(c.text);
               var detail := DetailMessage(b, tenant, ChatOf(m).value, detect, unmask, m);
               var exported := ToExportMessage(b, tenant, detect, redact, m);
               && detail.content == (if !shown then None else if unmask then Some(text) else Some(masked))
               && detail.redacted == (shown && !unmask && n > 0) && detail.findings == (if shown then n else 0)
               && exported.content == (if !shown then None else if redact then Some(masked) else Some(text))
               && exported.redacted == (shown && redact && n > 0)
  {
    var a, b := RunFrom(hs, tenant, EMPTY, c.Upto()), RunFrom(hs, tenant, EMPTY, c.All());
    CaptureIsStored(hs, tenant, c);
    RunFromJoins(hs, tenant, EMPTY, c.Upto(), c.after);
    RunFromKeepsInv(hs, tenant, a, c.after);
    m := a.rows[|a.rows| - 1];
    StillThere(m, a.rows, b.rows);
    CaptureOpens(hs, tenant, c);
    PurgedIffCovered(hs, tenant, c.All(), m);
  }

  /** It does happen: provision a key, capture a message, and its text is shown. */
  lemma FirstCaptureIsShown(hs: Hashes, tenant: string, f: Fields, text: string, detect: Detector) returns (m: Row)
    requires Appendable(tenant, f) && f.sourceApi == CONTENT && f.recordType == MESSAGE && CleanId(f)
    requires TextAt(f.metadata, "chat_id").Some? && f.contentRef.Some? && f.contentRef.value != ""
    ensures var b := RunFrom(hs, tenant, EMPTY, [UseVault(Seal.ProvisionKey(tenant))] + [Ingest(f, None, text)]);
            && m in b.rows && m.fields == f
            && DetailMessage(b, tenant, ChatOf(m).value, detect, true, m).content == Some(text)
  {
    var c := Capturing([UseVault(Seal.ProvisionKey(tenant))], f, None, text, []);
    var a := RunFrom(hs, tenant, EMPTY, c.before);
    assert [] + c.before == c.before && c.Upto() + [] == c.Upto();
    RunFromMore(hs, tenant, EMPTY, [], c.before[0]);
    assert a == Archive([], map[], Seal.Provision(Seal.EMPTY, tenant));
    m := CapturedIsShown(hs, tenant, c, detect, true, false);
    FirstIsUncovered(hs, tenant, c, m);
  }

  lemma FirstIsUncovered(hs: Hashes, tenant: string, c: Capturing, m: Row)
    requires c.before == [UseVault(Seal.ProvisionKey(tenant))] && c.after == [] && Accepted(hs, tenant, c)
    ensures StillShown(hs, tenant, c, m)
  {
    CaptureIsStored(hs, tenant, c);
    assert c.All() == c.Upto() && c.Upto()[..1] == c.before && c.before[..0] == [];
    RunFromMore(hs, tenant, EMPTY, c.before, Ingest(c.fields, c.size, c.text));
    assert !CoveredBy(hs, tenant, [], m);
    assert !CoveredBy(hs, tenant, c.before, m);
  }

  /** Whatever the ids: a message deleted without a blob error yields no content in either reader,
      even if its event could not be recorded, until a capture stores under its reference. */
  lemma DeletedYieldsNoContent(hs: Hashes, tenant: string, a: Archive, ms: seq<Row>, q: Request, fails: set<string>,
                               k: nat, more: seq<Op>, chat: string, detect: Detector, flag: bool)
    requires ArchiveInv(hs, tenant, a) && q.scope != "tenant" && MessagesOf(ms, tenant, a.rows) && k < |ms|
    requires ms[k].fields.contentRef.Some? ==>
               ms[k].fields.contentRef.value !in fails && NotStoredAgain(more, ms[k].fields.contentRef.value)
    ensures var b := RunFrom(hs, tenant, DeleteAll(hs, tenant, a, ms, q, fails).archive, more);
            && DetailMessage(b, tenant, chat, detect, flag, ms[k]).content == None
            && ToExportMessage(b, tenant, detect, flag, ms[k]).content == None
  {
    var after := DeleteAll(hs, tenant, a, ms, q, fails).archive;
    DeletedBlobsAreGone(hs, tenant, a, ms, q, fails);
    DeleteAllOutcome(hs, tenant, a, ms, q, fails);
    if ms[k].fields.contentRef.Some? && ms[k].fields.contentRef.value != "" {
      assert Takes(ms[k], fails, ms[k].fields.contentRef.value);
      BlobStaysGone(hs, tenant, after, more, ms[k].fields.contentRef.value);
    }
  }

  lemma DeleteAllStep(hs: Hashes, tenant: string, a: Archive, ms: seq<Row>, i: nat, q: Request, fails: set<string>)
    requires i < |ms|
    ensures DeleteAll(hs, tenant, a, ms[..i + 1], q, fails)
         == DeleteNext(hs, tenant, DeleteAll(hs, tenant, a, ms[..i], q, fails), ms[i], q, fails)
  {
    assert ms[..i + 1][..i] == ms[..i];
  }

  /** The rows after an event that is only appended when no row has its id. */
  function AfterEvent(hs: Hashes, rows: seq<Row>, tenant: string, f: Fields): seq<Row> {
    if DedupTaken(rows, tenant, f) then rows
    else rows + [NewRow(hs.link, ExpectedTip(OfTenant(rows, tenant)), tenant, f, None)]
  }

  lemma DeleteNextOutcome(hs: Hashes, tenant: string, t: Tally, m: Row, q: Request, fails: set<string>)
    requires TableInv(hs.link, t.archive.rows)
    ensures var a, f := t.archive, MessageEvent(hs, m, q);
            var taken := DedupTaken(a.rows, tenant, f);
            var b := Archive(AfterEvent(hs, a.rows, tenant, f), DropBlob(a.blobs, m, fails), a.vault);
            DeleteNext(hs, tenant, t, m, q, fails)
            == Tally(b, if taken then t.deleted else t.deleted + 1, if taken then t.already + 1 else t.already)
  {
    AppendEventOutcome(hs, t.archive.rows, tenant, MessageEvent(hs, m, q));
    WellChainedTip(hs.link, t.archive.rows, tenant);
  }

  lemma ShredOutcome(hs: Hashes, tenant: string, a: Archive, q: Request)
    requires ArchiveInv(hs, tenant, a)
    ensures ArchiveInv(hs, tenant, Shred(hs, tenant, a, q))
    ensures Apply(hs, tenant, a, ShredTenant(q)) == Shred(hs, tenant, a, q)
         == Archive(AfterEvent(hs, a.rows, tenant, TenantEvent(hs, q, tenant in a.vault.deks)), a.blobs,
                    Seal.Destroy(a.vault, tenant))
  {
    ShredKeepsInv(hs, tenant, a, q);
    AppendEventOutcome(hs, a.rows, tenant, TenantEvent(hs, q, tenant in a.vault.deks));
    WellChainedTip(hs.link, a.rows, tenant);
  }

  // ---- The chat detail view ----

  /** ORDER BY occurred_at, chain_seq; an instant is the ISO text of its UTC time. */
  predicate Earlier(r: Row, s: Row) {
    || Less(r.fields.occurredAt, s.fields.occurredAt)
    || (r.fields.occurredAt == s.fields.occurredAt && r.seqNo < s.seqNo)
  }

  function Thread(rows: seq<Row>, tenant: string, chat: string): seq<Row> {
    Sort(ChatMessages(rows, tenant, chat), Earlier)
  }

  /** A query of one tenant's rows sees them in the order of their chain. */
  lemma {:induction false} SelectAscends(h: HashFn, tenant: string, rows: seq<Row>, p: Row -> bool)
    requires WellChained(h, tenant, OfTenant(rows, tenant)) && forall r :: p(r) ==> r.tenant == tenant
    ensures forall i :: 0 <= i < |Select(rows, p)| ==> Select(rows, p)[i].seqNo <= |OfTenant(rows, tenant)|
    ensures forall i, j :: 0 <= i < j < |Select(rows, p)| ==> Select(rows, p)[i].seqNo < Select(rows, p)[j].seqNo
  {
    if rows != [] {
      var init, last := rows[..|rows| - 1], rows[|rows| - 1];
      assert rows == init + [last];
      OfTenantAppend(init, last, tenant);
      var chain := OfTenant(init, tenant);
      forall i | 0 <= i < |chain| ensures RowLink(h, tenant, chain, i) {
        assert RowLink(h, tenant, OfTenant(rows, tenant), i);
      }
      SelectAscends(h, tenant, init, p);
      if p(last) {
        assert RowLink(h, tenant, OfTenant(rows, tenant), |chain|);
      }
    }
  }

  lemma EarlierIsTransitive()
    ensures Transitive(Earlier)
  {
    forall a, b, c ensures Chains(Earlier, a, b, c) {
      if Less(a.fields.occurredAt, b.fields.occurredAt) && Less(b.fields.occurredAt, c.fields.occurredAt) {
        LessIsTransitive(a.fields.occurredAt, b.fields.occurredAt, c.fields.occurredAt);
      }
    }
  }

  /** The thread is every message of the chat, once, in strict order. */
  lemma ThreadIsOrdered(hs: Hashes, tenant: string, a: Archive, chat: string)
    requires ArchiveInv(hs, tenant, a)
    ensures Ordered(Thread(a.rows, tenant, chat), Earlier)
    ensures multiset(Thread(a.rows, tenant, chat)) == multiset(ChatMessages(a.rows, tenant, chat))
    ensures forall m :: multiset(Thread(a.rows, tenant, chat))[m]
                        == if IsContent(m, tenant, MESSAGE) && ChatOf(m) == Some(chat) then multiset(a.rows)[m] else 0
    ensures var t := Thread(a.rows, tenant, chat);
            forall i, j :: 0 <= i < j < |t| ==>
              Less(t[i].fields.occurredAt, t[j].fields.occurredAt)
              || (t[i].fields.occurredAt == t[j].fields.occurredAt && t[i].seqNo < t[j].seqNo)
    ensures |Thread(a.rows, tenant, chat)| == |ChatMessages(a.rows, tenant, chat)|
  {
    var rs := ChatMessages(a.rows, tenant, chat);
    assert WellChained(hs.link, tenant, OfTenant(a.rows, tenant));
    SelectAscends(hs.link, tenant, a.rows, (r: Row) => IsContent(r, tenant, MESSAGE) && ChatOf(r) == Some(chat));
    SelectRepeatsNothing(a.rows, (r: Row) => IsContent(r, tenant, MESSAGE) && ChatOf(r) == Some(chat));
    forall i, j | 0 <= i < j < |rs| ensures Earlier(rs[i], rs[j]) || Earlier(rs[j], rs[i]) {
      LessIsTotal(rs[i].fields.occurredAt, rs[j].fields.occurredAt);
    }
    EarlierIsTransitive();
    SortIsSorted(rs, Earlier);
    SortIsPermutation(rs, Earlier);
    assert |multiset(Thread(a.rows, tenant, chat))| == |multiset(rs)|;
  }

  /** The deletion events that cover a chat, or the whole tenant. */
  function Covering(rows: seq<Row>, tenant: string, chat: string): (es: seq<Row>)
    ensures forall e :: e in es <==>
              e in rows && IsContent(e, tenant, DELETION)
              && (ChatOf(e) == Some(chat) || TextAt(e.fields.metadata, "scope") == Some("tenant"))
  {
    Select(rows, (e: Row) => IsContent(e, tenant, DELETION)
                             && (ChatOf(e) == Some(chat) || TextAt(e.fields.metadata, "scope") == Some("tenant")))
  }

  function DeletedAt(e: Row): string {
    var t := TextAt(e.fields.metadata, "deleted_at");
    if t.Some? then t.value else ""
  }

  /** The event says when, and none of the others is more recent. */
  ghost predicate IsLatest(e: Row, es: seq<Row>) {
    && e in es && TextAt(e.fields.metadata, "deleted_at").Some?
    && forall f :: f in es && TextAt(f.fields.metadata, "deleted_at").Some? ==>
         !Less(TextAt(e.fields.metadata, "deleted_at").value, TextAt(f.fields.metadata, "deleted_at").value)
  }

  function Latest(es: seq<Row>): Row
    requires es != []
  {
    var last := es[|es| - 1];
    if |es| == 1 then last
    else
      var e := Latest(es[..|es| - 1]);
      if Less(DeletedAt(e), DeletedAt(last)) then last else e
  }

  lemma {:induction false} LatestIsLast(es: seq<Row>)
    requires es != []
    ensures Latest(es) in es && forall i :: 0 <= i < |es| ==> !Less(DeletedAt(Latest(es)), DeletedAt(es[i]))
  {
    LessIsStrict(DeletedAt(es[|es| - 1]), DeletedAt(es[|es| - 1]));
    if |es| > 1 {
      LatestIsLast(es[..|es| - 1]);
      LatestStep(es, Latest(es[..|es| - 1]));
    }
  }

  lemma LatestStep(es: seq<Row>, e: Row)
    requires |es| > 1 && forall i :: 0 <= i < |es| - 1 ==> !Less(DeletedAt(e), DeletedAt(es[i]))
    ensures Less(DeletedAt(e), DeletedAt(es[|es| - 1])) ==>
              forall i :: 0 <= i < |es| ==> !Less(DeletedAt(es[|es| - 1]), DeletedAt(es[i]))
  {
    var last := DeletedAt(es[|es| - 1]);
    LessIsStrict(last, last);
    if Less(DeletedAt(e), last) {
      forall i | 0 <= i < |es| - 1 ensures !Less(last, DeletedAt(es[i])) {
        if Less(last, DeletedAt(es[i])) {
          LessIsTransitive(DeletedAt(e), last, DeletedAt(es[i]));
        }
      }
    }
  }

  lemma ShredCovers(rows: seq<Row>, tenant: string, chat: string)
    requires TenantShred(rows, tenant)
    ensures Covering(rows, tenant, chat) != []
  {
    var e :| e in rows && IsContent(e, tenant, DELETION) && TextAt(e.fields.metadata, "scope") == Some("tenant");
    assert e in Covering(rows, tenant, chat);
  }

  lemma PurgeCovers(rows: seq<Row>, tenant: string, chat: string, m: Row)
    requires !TenantShred(rows, tenant) && PurgedInDetail(rows, tenant, chat, m)
    ensures Covering(rows, tenant, chat) != []
  {
    var e :| e in rows && IsContent(e, tenant, DELETION)
      && (ChatOf(e) == Some(chat) || TextAt(e.fields.metadata, "scope") == Some("tenant"))
      && TextAt(e.fields.metadata, "deleted_external_id") == Some(m.fields.externalId);
    assert e in Covering(rows, tenant, chat);
  }

  /** A purged chat has a most recent event to name. */
  lemma PurgedChatIsCovered(hs: Hashes, tenant: string, a: Archive, chat: string)
    requires ArchiveInv(hs, tenant, a) && ChatPurgedInDetail(a.rows, tenant, chat)
    ensures var es := Covering(a.rows, tenant, chat); es != [] && IsLatest(Latest(es), es)
  {
    if TenantShred(a.rows, tenant) {
      ShredCovers(a.rows, tenant, chat);
    } else {
      PurgeCovers(a.rows, tenant, chat, ChatMessages(a.rows, tenant, chat)[0]);
    }
    LatestIsLast(Covering(a.rows, tenant, chat));
    var e := Latest(Covering(a.rows, tenant, chat));
    assert EventIsJustified(a.rows, tenant, e);
  }

  // ---- The export ----

  function AddTo(chats: seq<ExportedChat>, chat: string, x: ExportMessage): seq<ExportedChat> {
    if chats == [] then [ExportedChat(chat, [x])]
    else if chats[0].chatId == chat then [ExportedChat(chat, chats[0].messages + [x])] + chats[1..]
    else [chats[0]] + AddTo(chats[1..], chat, x)
  }

  /** The chats of the records seen so far, grouped. */
  function GroupChats(a: Archive, tenant: string, detect: Detector, redact: bool, rs: seq<Row>): seq<ExportedChat>
    requires forall i :: 0 <= i < |rs| ==> ChatOf(rs[i]).Some?
  {
    if rs == [] then []
    else
      var last := rs[|rs| - 1];
      AddTo(GroupChats(a, tenant, detect, redact, rs[..|rs| - 1]), ChatOf(last).value,
            ToExportMessage(a, tenant, detect, redact, last))
  }

  /** What the export holds for a chat. */
  function MessagesUnder(chats: seq<ExportedChat>, chat: string): seq<ExportMessage> {
    if chats == [] then []
    else if chats[0].chatId == chat then chats[0].messages
    else MessagesUnder(chats[1..], chat)
  }

  /** The messages of one chat among the exported records, in order. */
  function MessagesFor(a: Archive, tenant: string, detect: Detector, redact: bool, rs: seq<Row>,
                       chat: string): seq<ExportMessage> {
    if rs == [] then []
    else
      var last := rs[|rs| - 1];
      MessagesFor(a, tenant, detect, redact, rs[..|rs| - 1], chat)
        + if ChatOf(last) == Some(chat) then [ToExportMessage(a, tenant, detect, redact, last)] else []
  }

  /** Message by message, the export of a chat shows its records, in order. */
  ghost predicate ChatShows(a: Archive, tenant: string, detect: Detector, redact: bool, rs: seq<Row>,
                            messages: seq<ExportMessage>) {
    |messages| == |rs| && forall i :: 0 <= i < |rs| ==> ExportShows(a, tenant, detect, redact, rs[i], messages[i])
  }

  /** The records of one chat. */
  function OfChat(rs: seq<Row>, chat: string): seq<Row> {
    Select(rs, (r: Row) => ChatOf(r) == Some(chat))
  }

  lemma {:induction false} MessagesForShow(a: Archive, tenant: string, detect: Detector, redact: bool, rs: seq<Row>,
                                           chat: string)
    ensures ChatShows(a, tenant, detect, redact, OfChat(rs, chat), MessagesFor(a, tenant, detect, redact, rs, chat))
  {
    if rs != [] {
      MessagesForShow(a, tenant, detect, redact, rs[..|rs| - 1], chat);
      ReadersShow(a, tenant, chat, detect, false, redact, rs[|rs| - 1]);
    }
  }

  function Ids(chats: seq<ExportedChat>): seq<string> {
    if chats == [] then [] else [chats[0].chatId] + Ids(chats[1..])
  }

  /** The chats in the order of their first record, each once. */
  function FirstSeen(rs: seq<Row>): (ids: seq<string>)
    requires forall i :: 0 <= i < |rs| ==> ChatOf(rs[i]).Some?
    ensures forall i, j :: 0 <= i < j < |ids| ==> ids[i] != ids[j]
    ensures forall id :: id in ids <==> exists i :: 0 <= i < |rs| && ChatOf(rs[i]).value == id
  {
    if rs == [] then []
    else
      var ids, id := FirstSeen(rs[..|rs| - 1]), ChatOf(rs[|rs| - 1]).value;
      assert forall i :: 0 <= i < |rs| - 1 ==> rs[..|rs| - 1][i] == rs[i];
      if id in ids then ids else ids + [id]
  }

  lemma {:induction false} AddToOutcome(chats: seq<ExportedChat>, chat: string, x: ExportMessage, other: string)
    ensures Ids(AddTo(chats, chat, x)) == Ids(chats) + if chat in Ids(chats) then [] else [chat]
    ensures MessagesUnder(AddTo(chats, chat, x), other)
         == MessagesUnder(chats, other) + if other == chat then [x] else []
    ensures MessageCount(AddTo(chats, chat, x)) == MessageCount(chats) + 1
  {
    if chats != [] {
      var c, more := chats[0], chats[1..];
      if c.chatId == chat {
        var d := ExportedChat(chat, c.messages + [x]);
        assert AddTo(chats, chat, x)[0] == d && AddTo(chats, chat, x)[1..] == more;
      } else {
        AddToOutcome(more, chat, x, other);
        assert AddTo(chats, chat, x)[0] == c && AddTo(chats, chat, x)[1..] == AddTo(more, chat, x);
      }
    }
  }

  function MessageCount(chats: seq<ExportedChat>): nat {
    if chats == [] then 0 else |chats[0].messages| + MessageCount(chats[1..])
  }

  /** Grouping loses and repeats nothing: the chats come in the order they were first seen, each
      once, and a chat's messages are its records, in order. */
  lemma {:induction false} GroupedByChat(a: Archive, tenant: string, detect: Detector, redact: bool, rs: seq<Row>,
                                         chat: string)
    requires forall i :: 0 <= i < |rs| ==> ChatOf(rs[i]).Some?
    ensures var chats := GroupChats(a, tenant, detect, redact, rs);
            && Ids(chats) == FirstSeen(rs)
            && MessagesUnder(chats, chat) == MessagesFor(a, tenant, detect, redact, rs, chat)
            && ChatShows(a, tenant, detect, redact, OfChat(rs, chat), MessagesUnder(chats, chat))
            && MessageCount(chats) == |rs|
  {
    MessagesForShow(a, tenant, detect, redact, rs, chat);
    if rs != [] {
      var init, last := rs[..|rs| - 1], rs[|rs| - 1];
      GroupedByChat(a, tenant, detect, redact, init, chat);
      AddToOutcome(GroupChats(a, tenant, detect, redact, init), ChatOf(last).value,
                   ToExportMessage(a, tenant, detect, redact, last), chat);
    }
  }

  function ProofRows(rows: seq<Row>, tenant: string, rs: seq<Row>): (proof: seq<ProofRow>)
    requires forall i :: 0 <= i < |rs| ==> ChatOf(rs[i]).Some?
    ensures |proof| == |rs| && forall i :: 0 <= i < |rs| ==> proof[i] == ToProofRow(rows, tenant, rs[i])
  {
    if rs == [] then []
    else ProofRows(rows, tenant, rs[..|rs| - 1]) + [ToProofRow(rows, tenant, rs[|rs| - 1])]
  }

  /** Row by row, by ascending number, a proof certifies its records. */
  ghost predicate ProofCertifies(rows: seq<Row>, tenant: string, rs: seq<Row>, proof: seq<ProofRow>) {
    && |proof| == |rs| && (forall i :: 0 <= i < |rs| ==> Certifies(rows, tenant, rs[i], proof[i]))
    && forall i, j :: 0 <= i < j < |proof| ==> proof[i].seqNo <= proof[j].seqNo
  }

  ghost predicate ProofRehashes(h: HashFn, tenant: string, rs: seq<Row>, proof: seq<ProofRow>) {
    |proof| == |rs| && forall i :: 0 <= i < |rs| ==> Rehashes(h, tenant, rs[i], proof[i])
  }

  lemma ProofRowsCertify(rows: seq<Row>, tenant: string, rs: seq<Row>)
    requires BySeq(rs) && forall i :: 0 <= i < |rs| ==> ChatOf(rs[i]).Some?
    ensures ProofCertifies(rows, tenant, rs, ProofRows(rows, tenant, rs))
  {
  }

  lemma RowsRehash(h: HashFn, rows: seq<Row>, tenant: string, rs: seq<Row>)
    requires TableInv(h, rows)
    requires forall i :: 0 <= i < |rs| ==> rs[i] in rows && rs[i].tenant == tenant && ChatOf(rs[i]).Some?
    ensures ProofRehashes(h, tenant, rs, ProofRows(rows, tenant, rs))
  {
    var proof := ProofRows(rows, tenant, rs);
    forall i | 0 <= i < |rs| ensures Rehashes(h, tenant, rs[i], proof[i]) {
      CertifiedRehashes(h, rows, tenant, rs[i], proof[i]);
    }
  }

  /** Every chat of an export shows its records. */
  ghost predicate ChatsShow(a: Archive, tenant: string, detect: Detector, redact: bool, rs: seq<Row>,
                            chats: seq<ExportedChat>) {
    forall chat :: ChatShows(a, tenant, detect, redact, OfChat(rs, chat), MessagesUnder(chats, chat))
  }

  lemma GroupedChatsShow(a: Archive, tenant: string, detect: Detector, redact: bool, rs: seq<Row>)
    requires forall i :: 0 <= i < |rs| ==> ChatOf(rs[i]).Some?
    ensures ChatsShow(a, tenant, detect, redact, rs, GroupChats(a, tenant, detect, redact, rs))
    ensures MessageCount(GroupChats(a, tenant, detect, redact, rs)) == |rs|
    ensures Ids(GroupChats(a, tenant, detect, redact, rs)) == FirstSeen(rs)
  {
    forall chat
      ensures ChatShows(a, tenant, detect, redact, OfChat(rs, chat),
                        MessagesUnder(GroupChats(a, tenant, detect, redact, rs), chat))
    {
      GroupedByChat(a, tenant, detect, redact, rs, chat);
    }
    GroupedByChat(a, tenant, detect, redact, rs, "");
  }

  /** The purged rows of a proof. */
  function PurgedIn(proof: seq<ProofRow>): nat {
    if proof == [] then 0 else PurgedIn(proof[..|proof| - 1]) + if proof[|proof| - 1].purged then 1 else 0
  }

  lemma PurgedInMore(proof: seq<ProofRow>, p: ProofRow)
    ensures PurgedIn(proof + [p]) == PurgedIn(proof) + if p.purged then 1 else 0
  {
    assert (proof + [p])[..|proof|] == proof;
  }

  lemma GatherStep(a: Archive, tenant: string, detect: Detector, redact: bool, rs: seq<Row>, i: nat)
    requires i < |rs| && forall k :: 0 <= k < |rs| ==> ChatOf(rs[k]).Some?
    ensures var x, p := ToExportMessage(a, tenant, detect, redact, rs[i]), ToProofRow(a.rows, tenant, rs[i]);
            && GroupChats(a, tenant, detect, redact, rs[..i + 1])
               == AddTo(GroupChats(a, tenant, detect, redact, rs[..i]), ChatOf(rs[i]).value, x)
            && ProofRows(a.rows, tenant, rs[..i + 1]) == ProofRows(a.rows, tenant, rs[..i]) + [p]
            && p.purged == x.purged
  {
    assert rs[..i + 1][..i] == rs[..i];
  }

  datatype ServiceError = MissingId | ChatNotFound

  class Service {
    const tenant: string
    const vault: Seal.SecretVault
    var rows: seq<Row>
    var blobs: map<string, Blob>

    function State(): Archive
      reads this, vault
    {
      Archive(rows, blobs, vault.State())
    }

    ghost predicate Valid(hs: Hashes)
      reads this, vault
    {
      ArchiveInv(hs, tenant, State())
    }

    constructor (hs: Hashes, tenant: string)
      ensures Valid(hs) && this.tenant == tenant && State() == EMPTY && fresh(vault)
    {
      this.tenant := tenant;
      vault := new Seal.SecretVault();
      rows, blobs := [], map[];
      new;
      EmptyInv(hs, tenant);
    }

    /** `_append_deletion_event`: True exactly when no row of the tenant has the event's id; the
        event is then the chain's next link.  Otherwise nothing changes. */
    method AppendDeletionEvent(hs: Hashes, f: Fields) returns (appended: bool)
      requires TableInv(hs.link, rows)
      modifies this`rows
      ensures TableInv(hs.link, rows)
      ensures appended <==> !DedupTaken(old(rows), tenant, f)
      ensures !appended ==> rows == old(rows)
      ensures appended ==>
                rows == old(rows) + [NewRow(hs.link, ExpectedTip(OfTenant(old(rows), tenant)), tenant, f, None)]
      ensures DedupTaken(rows, tenant, f)
    {
      AppendEventOutcome(hs, rows, tenant, f);
      WellChainedTip(hs.link, rows, tenant);
      var row := NewRow(hs.link, ReadTip(rows, tenant), tenant, f, None);
      match InsertRow(rows, row) {
        case None =>
          return false;
        case Some(after) =>
          rows := after;
          return true;
      }
    }

    /** `delete_content`, best effort. */
    method RemoveBlob(m: Row, fails: set<string>)
      modifies this`blobs
      ensures blobs == DropBlob(old(blobs), m, fails)
      ensures LosesOnly(old(blobs), blobs, [m], fails)
    {
      DropOneLosesOnly(blobs, m, fails);
      if m.fields.contentRef.Some? && m.fields.contentRef.value != "" {
        if m.fields.contentRef.value !in fails {
          blobs := blobs - {m.fields.contentRef.value};
        }
      }
    }

    /** The body of the loop of `_delete_message_records`: blob first, then event. */
    method DeleteRecord(hs: Hashes, m: Row, q: Request, fails: set<string>, deleted: nat, already: nat)
      returns (deleted': nat, already': nat)
      requires TableInv(hs.link, rows)
      modifies this
      ensures TableInv(hs.link, rows)
      ensures Tally(State(), deleted', already')
           == DeleteNext(hs, tenant, Tally(old(State()), deleted, already), m, q, fails)
    {
      DeleteNextOutcome(hs, tenant, Tally(State(), deleted, already), m, q, fails);
      RemoveBlob(m, fails);
      var appended := AppendDeletionEvent(hs, MessageEvent(hs, m, q));
      if appended {
        return deleted + 1, already;
      } else {
        return deleted, already + 1;
      }
    }

    method DeleteEach(hs: Hashes, ms: seq<Row>, q: Request, fails: set<string>) returns (deleted: nat, already: nat)
      requires TableInv(hs.link, rows)
      modifies this
      ensures Tally(State(), deleted, already) == DeleteAll(hs, tenant, old(State()), ms, q, fails)
    {
      ghost var before := State();
      deleted, already := 0, 0;
      var i := 0;
      while i < |ms|
        invariant 0 <= i <= |ms| && TableInv(hs.link, rows)
        invariant Tally(State(), deleted, already) == DeleteAll(hs, tenant, before, ms[..i], q, fails)
      {
        DeleteAllStep(hs, tenant, before, ms, i, q, fails);
        deleted, already := DeleteRecord(hs, ms[i], q, fails, deleted, already);
        i := i + 1;
      }
      assert ms[..i] == ms;
    }

    /** `_delete_message_records` */
    method DeleteMessageRecords(hs: Hashes, ms: seq<Row>, q: Request, fails: set<string>)
      returns (deleted: nat, already: nat)
      requires Valid(hs) && q.scope != "tenant" && MessagesOf(ms, tenant, rows)
      modifies this
      ensures Valid(hs)
      ensures Tally(State(), deleted, already) == DeleteAll(hs, tenant, old(State()), ms, q, fails)
      ensures deleted + already == |ms|
      ensures old(rows) <= rows && |rows| == |old(rows)| + deleted
      ensures EachRecords(hs, rows, |old(rows)|, ms, q)
      ensures LosesOnly(old(blobs), blobs, ms, fails)
    {
      DeleteAllOutcome(hs, tenant, State(), ms, q, fails);
      DeleteAllRecords(hs, tenant, State(), ms, q, fails);
      DeletedBlobsAreGone(hs, tenant, State(), ms, q, fails);
      deleted, already := DeleteEach(hs, ms, q, fails);
    }

    /** `delete_chat` */
    method DeleteChat(hs: Hashes, chat: string, q: Request, fails: set<string>)
      returns (r: Result<(nat, nat), ServiceError>)
      requires Valid(hs)
      modifies this
      ensures Valid(hs)
      ensures r.Failure? <==> tenant == "" || chat == ""
      ensures r.Failure? ==> State() == old(State())
      ensures r.Success? ==>
                && State() == Apply(hs, tenant, old(State()), Op.DeleteChat(chat, q, fails))
                && r.value.0 + r.value.1 == |ChatMessages(old(rows), tenant, chat)|
                && old(rows) <= rows && |rows| == |old(rows)| + r.value.0
      ensures r.Success? ==>
                var ms := ChatMessages(old(rows), tenant, chat);
                && EachRecords(hs, rows, |old(rows)|, ms, q.(scope := "chat", dsrSubject := None))
                && LosesOnly(old(blobs), blobs, ms, fails)
    {
      if tenant == "" || chat == "" {
        return Failure(MissingId);
      }
      var ms := ChatMessages(rows, tenant, chat);
      var deleted, already := DeleteMessageRecords(hs, ms, ChatRequest(q), fails);
      return Success((deleted, already));
    }

    /** `delete_user_content` */
    method DeleteUserContent(hs: Hashes, user: string, q: Request, fails: set<string>)
      returns (r: Result<(nat, nat), ServiceError>)
      requires Valid(hs)
      modifies this
      ensures Valid(hs)
      ensures r.Failure? <==> tenant == "" || user == ""
      ensures r.Failure? ==> State() == old(State())
      ensures r.Success? ==>
                && State() == Apply(hs, tenant, old(State()), DeleteUser(user, q, fails))
                && r.value.0 + r.value.1 == |UserMessages(old(rows), tenant, user)|
                && old(rows) <= rows && |rows| == |old(rows)| + r.value.0
      ensures r.Success? ==>
                var ms := UserMessages(old(rows), tenant, user);
                && EachRecords(hs, rows, |old(rows)|, ms, q.(scope := "user", dsrSubject := Some(user)))
                && LosesOnly(old(blobs), blobs, ms, fails)
    {
      if tenant == "" || user == "" {
        return Failure(MissingId);
      }
      var ms := UserMessages(rows, tenant, user);
      var deleted, already := DeleteMessageRecords(hs, ms, UserRequest(q, user), fails);
      return Success((deleted, already));
    }

    method DestroyAndRecord(hs: Hashes, q: Request) returns (destroyed: bool, appended: bool)
      requires TableInv(hs.link, rows) && tenant != ""
      modifies this`rows, vault
      ensures destroyed <==> tenant in old(vault.deks)
      ensures vault.State() == Seal.Destroy(old(vault.State()), tenant)
      ensures var f := TenantEvent(hs, q, destroyed);
              && (appended <==> !DedupTaken(old(rows), tenant, f))
              && rows == AfterEvent(hs, old(rows), tenant, f)
    {
      var r := vault.DestroyTenantDek(tenant);
      destroyed := r.value;
      appended := AppendDeletionEvent(hs, TenantEvent(hs, q, destroyed));
    }

    /** `crypto_shred_tenant`: the key first, then the event. */
    method CryptoShredTenant(hs: Hashes, q: Request) returns (r: Result<(bool, bool), ServiceError>)
      requires Valid(hs)
      modifies this, vault
      ensures Valid(hs)
      ensures r.Failure? <==> tenant == ""
      ensures r.Failure? ==> State() == old(State())
      ensures r.Success? ==>
                && State() == Apply(hs, tenant, old(State()), ShredTenant(q))
                && (r.value.0 <==> tenant in old(vault.deks)) && tenant !in vault.deks
                && (r.value.1 <==> |rows| == |old(rows)| + 1) && (!r.value.1 ==> rows == old(rows))
                && (r.value.1 ==> old(rows) <= rows && RecordsShred(hs, rows[|old(rows)|], q, r.value.0))
                && blobs == old(blobs)
    {
      if tenant == "" {
        return Failure(MissingId);
      }
      ghost var before := State();
      ShredOutcome(hs, tenant, before, q);
      var destroyed, appended := DestroyAndRecord(hs, q);
      assert State() == Apply(hs, tenant, before, ShredTenant(q));
      WellChainedTip(hs.link, before.rows, tenant);
      TenantEventRecords(hs, before.rows, tenant, q, destroyed);
      return Success((destroyed, appended));
    }

    /** The loop of `_build_chat_detail`. */
    method ShowMessages(rs: seq<Row>, chat: string, detect: Detector, unmask: bool)
      returns (messages: seq<ContentMessage>, allPurged: bool)
      ensures |messages| == |rs|
      ensures forall i :: 0 <= i < |rs| ==>
                && messages[i] == DetailMessage(State(), tenant, chat, detect, unmask, rs[i])
                && DetailShows(State(), tenant, chat, detect, unmask, rs[i], messages[i])
      ensures allPurged <==> forall i :: 0 <= i < |rs| ==> PurgedInDetail(rows, tenant, chat, rs[i])
    {
      messages, allPurged := [], true;
      var i := 0;
      while i < |rs|
        invariant 0 <= i <= |rs| && |messages| == i
        invariant forall k :: 0 <= k < i ==> messages[k] == DetailMessage(State(), tenant, chat, detect, unmask, rs[k])
        invariant allPurged <==> forall k :: 0 <= k < i ==> PurgedInDetail(rows, tenant, chat, rs[k])
      {
        var purged := PurgedInDetail(rows, tenant, chat, rs[i]);
        var text: Option<string> := None;
        if rs[i].fields.contentRef.Some? && rs[i].fields.contentRef.value != "" && !purged {
          text := Retrieve(tenant, State(), rs[i].fields.contentRef.value);
        }
        var shown: Option<string> := None;
        var findings := 0;
        if text.Some? {
          var (masked, n) := detect(text.value);
          findings := n;
          shown := Some(if unmask then text.value else masked);
        }
        messages := messages
          + [ContentMessage(rs[i].fields.externalId, shown, purged, !unmask && findings > 0, findings)];
        allPurged := allPurged && purged;
        i := i + 1;
      }
      forall k | 0 <= k < |rs| ensures DetailShows(State(), tenant, chat, detect, unmask, rs[k], messages[k]) {
        ReadersShow(State(), tenant, chat, detect, unmask, false, rs[k]);
      }
    }

    /** The reason and the time of a most recent deletion that covers a purged chat. */
    method NamePurge(hs: Hashes, chat: string) returns (reason: Option<string>, at: Option<string>)
      requires Valid(hs) && ChatPurgedInDetail(rows, tenant, chat)
      ensures exists e :: IsLatest(e, Covering(rows, tenant, chat))
                          && reason == TextAt(e.fields.metadata, "reason")
                          && at == TextAt(e.fields.metadata, "deleted_at")
    {
      PurgedChatIsCovered(hs, tenant, State(), chat);
      var e := Latest(Covering(rows, tenant, chat));
      return TextAt(e.fields.metadata, "reason"), TextAt(e.fields.metadata, "deleted_at");
    }

    /** `_build_chat_detail`: one message per record, ordered by time; when all are purged, the
        reason and the time of a most recent deletion that covers the chat. */
    method BuildChatDetail(hs: Hashes, chat: string, detect: Detector, unmask: bool)
      returns (r: Result<ChatDetail, ServiceError>)
      requires Valid(hs)
      ensures r.Failure? <==> ChatMessages(rows, tenant, chat) == []
      ensures r.Success? ==>
                var d, thread := r.value, Thread(rows, tenant, chat);
                && |d.messages| == |thread|
                && (forall i :: 0 <= i < |thread| ==>
                      && d.messages[i] == DetailMessage(State(), tenant, chat, detect, unmask, thread[i])
                      && DetailShows(State(), tenant, chat, detect, unmask, thread[i], d.messages[i]))
                && (d.purged <==> ChatPurgedInDetail(rows, tenant, chat))
                && (!d.purged ==> d.purgeReason == None && d.purgedAt == None)
                && (d.purged ==> exists e :: IsLatest(e, Covering(rows, tenant, chat))
                                             && d.purgeReason == TextAt(e.fields.metadata, "reason")
                                             && d.purgedAt == TextAt(e.fields.metadata, "deleted_at"))
    {
      ThreadIsOrdered(hs, tenant, State(), chat);
      var thread := Thread(rows, tenant, chat);
      if thread == [] {
        return Failure(ChatNotFound);
      }
      var messages, allPurged := ShowMessages(thread, chat, detect, unmask);
      SamePurged(thread, ChatMessages(rows, tenant, chat), chat);
      if !(TenantShred(rows, tenant) || allPurged) {
        return Success(ChatDetail(false, None, None, messages));
      }
      var reason, at := NamePurge(hs, chat);
      return Success(ChatDetail(true, reason, at, messages));
    }

    lemma SamePurged(thread: seq<Row>, rs: seq<Row>, chat: string)
      requires multiset(thread) == multiset(rs)
      ensures (forall i :: 0 <= i < |thread| ==> PurgedInDetail(rows, tenant, chat, thread[i]))
         <==> (forall m :: m in rs ==> PurgedInDetail(rows, tenant, chat, m))
    {
      assert forall m :: m in rs <==> m in multiset(rs);
      assert forall m :: m in thread <==> m in multiset(thread);
    }

    /** One record of the export: decrypt unless purged, mask when asked to. */
    method ExportRecord(r: Row, detect: Detector, redact: bool) returns (x: ExportMessage)
      ensures x == ToExportMessage(State(), tenant, detect, redact, r)
    {
      var purged := PurgedInExport(rows, tenant, r);
      var content: Option<string> := None;
      var redacted := false;
      if r.fields.contentRef.Some? && r.fields.contentRef.value != "" && !purged {
        var text := Retrieve(tenant, State(), r.fields.contentRef.value);
        if text.Some? {
          if redact {
            var (masked, n) := detect(text.value);
            content, redacted := Some(masked), n > 0;
          } else {
            content := text;
          }
        }
      }
      x := ExportMessage(r.fields.externalId, content, purged, redacted);
    }

    /** The loop of `gather_export_model`. */
    method GatherRecords(rs: seq<Row>, detect: Detector, redact: bool)
      returns (chats: seq<ExportedChat>, proof: seq<ProofRow>, purgedCount: nat)
      requires forall i :: 0 <= i < |rs| ==> ChatOf(rs[i]).Some?
      ensures chats == GroupChats(State(), tenant, detect, redact, rs)
      ensures proof == ProofRows(rows, tenant, rs)
      ensures purgedCount == PurgedIn(proof)
    {
      chats, proof, purgedCount := [], [], 0;
      var i := 0;
      while i < |rs|
        invariant 0 <= i <= |rs|
        invariant proof == ProofRows(rows, tenant, rs[..i])
        invariant chats == GroupChats(State(), tenant, detect, redact, rs[..i])
        invariant purgedCount == PurgedIn(proof)
      {
        GatherStep(State(), tenant, detect, redact, rs, i);
        PurgedInMore(proof, ToProofRow(rows, tenant, rs[i]));
        var x := ExportRecord(rs[i], detect, redact);
        if x.purged {
          purgedCount := purgedCount + 1;
        }
        chats := AddTo(chats, ChatOf(rs[i]).value, x);
        proof := proof + [ToProofRow(rows, tenant, rs[i])];
        i := i + 1;
      }
      assert rs[..i] == rs;
    }

    /** `_fetch_records`, ORDER BY chain_seq. */
    function ExportRecords(inScope: Row -> bool): (rs: seq<Row>)
      reads this
      ensures forall m :: multiset(rs)[m] == (if IsContent(m, tenant, MESSAGE) && ChatOf(m).Some? && inScope(m)
                                              then multiset(rows)[m] else 0)
      ensures forall i :: 0 <= i < |rs| ==> InExport(rs[i], tenant, inScope)
      ensures BySeq(rs)
    {
      var selected := Select(rows, (r: Row) => InExport(r, tenant, inScope));
      var rs := OrderBySeq(selected);
      OrderBySeqSorts(selected);
      SelectRepeatsNothing(rows, (r: Row) => InExport(r, tenant, inScope));
      assert forall i :: 0 <= i < |rs| ==> rs[i] in multiset(selected) && rs[i] in selected;
      rs
    }

    /** In a table that only appends have touched, the numbers ascend and the chain is valid. */
    lemma UntouchedExport(hs: Hashes, inScope: Row -> bool)
      requires TableInv(hs.link, rows)
      ensures forall i, j :: 0 <= i < j < |ExportRecords(inScope)| ==>
                ExportRecords(inScope)[i].seqNo < ExportRecords(inScope)[j].seqNo
      ensures Verify(hs.link, rows, tenant) == VerifyResult(true, |OfTenant(rows, tenant)|, None)
    {
      assert WellChained(hs.link, tenant, OfTenant(rows, tenant));
      WellChainedVerifies(hs.link, rows, tenant);
      SelectAscends(hs.link, tenant, rows, (r: Row) => InExport(r, tenant, inScope));
      AscendingIsOrdered(Select(rows, (r: Row) => InExport(r, tenant, inScope)));
    }

    lemma ExportedIsHere(inScope: Row -> bool)
      ensures forall i :: 0 <= i < |ExportRecords(inScope)| ==> ExportRecords(inScope)[i] in rows
    {
      var rs := ExportRecords(inScope);
      forall i | 0 <= i < |rs| ensures rs[i] in rows {
        assert rs[i] in multiset(rs);
        assert rs[i] in multiset(rows);
      }
    }

    lemma UntouchedProof(hs: Hashes, inScope: Row -> bool)
      requires TableInv(hs.link, rows)
      ensures ProofRehashes(hs.link, tenant, ExportRecords(inScope), ProofRows(rows, tenant, ExportRecords(inScope)))
    {
      ExportedIsHere(inScope);
      RowsRehash(hs.link, rows, tenant, ExportRecords(inScope));
    }

    /** `gather_export_model`, for any table, tampered or not: every record in scope once in its
        chat and once in the proof, by ascending number; the counts are those of the chats and the
        proof, the report is the chain's verification, and the digest names both.  `explain` gives
        the failure reason of the chain package. */
    method GatherExportModel(hs: Hashes, explain: VerifyResult -> Option<string>, inScope: Row -> bool,
                             detect: Detector, redact: bool)
      returns (r: Result<ExportModel, ServiceError>)
      ensures r.Failure? <==> tenant == ""
      ensures r.Success? ==>
                var m, rs, v := r.value, ExportRecords(inScope), Verify(hs.link, rows, tenant);
                && m.chats == GroupChats(State(), tenant, detect, redact, rs) && Ids(m.chats) == FirstSeen(rs)
                && m.proof == ProofRows(rows, tenant, rs)
                && ChatsShow(State(), tenant, detect, redact, rs, m.chats) && ProofCertifies(rows, tenant, rs, m.proof)
                && m.counts.chats == |m.chats|
                && m.counts.messages == |m.proof| == MessageCount(m.chats)
                && m.counts.purgedMessages == PurgedIn(m.proof)
                && m.verification == Report(v, explain(v))
                && m.digest == Digest(hs, m.verification, m.proof)
      ensures r.Success? && TableInv(hs.link, rows) ==>
                && (forall i, j :: 0 <= i < j < |r.value.proof| ==> r.value.proof[i].seqNo < r.value.proof[j].seqNo)
                && ProofRehashes(hs.link, tenant, ExportRecords(inScope), r.value.proof)
                && r.value.verification.result == VerifyResult(true, |OfTenant(rows, tenant)|, None)
    {
      if tenant == "" {
        return Failure(MissingId);
      }
      var rs := ExportRecords(inScope);
      GroupedChatsShow(State(), tenant, detect, redact, rs);
      ProofRowsCertify(rows, tenant, rs);
      var chats, proof, purgedCount := GatherRecords(rs, detect, redact);
      var verification := Verify(hs.link, rows, tenant);
      var report := Report(verification, explain(verification));
      if TableInv(hs.link, rows) {
        UntouchedExport(hs, inScope);
        UntouchedProof(hs, inScope);
      }
      return Success(ExportModel(chats, proof, Counts(|chats|, |proof|, purgedCount), report,
                                 Digest(hs, report, proof)));
    }
  }
}
