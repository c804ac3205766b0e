/**
 Deletion over whole runs: append-only and verified, purged for good in all three readers,
 shredded content unreadable; and runs in which a captured id hides a deletion.
 */
module ContentRuns {
  import opened Wrappers
  import opened Json
  import opened CanonicalRecord
  import opened Chain
  import opened Deletion
  import opened ContentViews
  import Seal
  import Utf8

  // ---- Whole runs ----

  datatype Op =
    | Ingest(fields: Fields, size: Option<nat>, text: string)
    | DeleteChat(chat: string, request: Request, fails: set<string>)
    | DeleteUser(user: string, request: Request, fails: set<string>)
    | ShredTenant(request: Request)
    | Reveal(uuid: string, now: string, details: Dict, subject: Option<string>)
    | UseVault(action: Seal.Action)

  function ChatRequest(q: Request): Request {
    q.(scope := "chat", dsrSubject := None)
  }

  function UserRequest(q: Request, user: string): Request {
    q.(scope := "user", dsrSubject := Some(user))
  }

  /** What an append accepts: a tenant, and a content hash of 32 bytes. */
  predicate Appendable(tenant: string, f: Fields) {
    tenant != "" && |f.contentHash| == 32
  }

  /** Capturing a record; its blob is sealed under the current key.  Deletion events come
      only from deletions. */
  function IngestRecord(hs: Hashes, tenant: string, a: Archive, f: Fields, size: Option<nat>, text: string): Archive {
    if !Appendable(tenant, f) || (f.sourceApi == CONTENT && f.recordType == DELETION) then a
    else
      match InsertRow(a.rows, NewRow(hs.link, ReadTip(a.rows, tenant), tenant, f, size))
      case None => a
      case Some(rows) =>
        a.(rows := rows,
           blobs := if f.contentRef.Some? && Seal.GetDek(a.vault, tenant).Success? then
                      a.blobs[f.contentRef.value := Blob(Seal.GetDek(a.vault, tenant).value, text)]
                    else a.blobs)
  }

  function Apply(hs: Hashes, tenant: string, a: Archive, op: Op): Archive {
    match op
    case Ingest(f, size, text) => IngestRecord(hs, tenant, a, f, size, text)
    case DeleteChat(chat, q, fails) =>
      DeleteAll(hs, tenant, a, ChatMessages(a.rows, tenant, chat), ChatRequest(q), fails).archive
    case DeleteUser(user, q, fails) =>
      DeleteAll(hs, tenant, a, UserMessages(a.rows, tenant, user), UserRequest(q, user), fails).archive
    case ShredTenant(q) => Shred(hs, tenant, a, q)
    case Reveal(uuid, now, d, subject) =>
      a.(rows := AppendEvent(hs, a.rows, tenant, RevealEvent(hs, uuid, now, d, subject)).0)
    case UseVault(action) => a.(vault := Seal.Step(a.vault, action))
  }

  function RunFrom(hs: Hashes, tenant: string, a: Archive, ops: seq<Op>): Archive {
    if ops == [] then a else Apply(hs, tenant, RunFrom(hs, tenant, a, ops[..|ops| - 1]), ops[|ops| - 1])
  }

  const EMPTY := Archive([], map[], Seal.EMPTY)

  lemma StoreKeepsKeysFresh(a: Archive, ref: string, tenant: string, text: string, rows: seq<Row>)
    requires KeysFresh(a) && Seal.GetDek(a.vault, tenant).Success?
    ensures KeysFresh(Archive(rows, a.blobs[ref := Blob(Seal.GetDek(a.vault, tenant).value, text)], a.vault))
  {
    assert Seal.GoodDek(a.vault, tenant);
  }

  lemma RowKeepsInv(hs: Hashes, tenant: string, a: Archive, row: Row, b: Archive)
    requires ArchiveInv(hs, tenant, a) && !IsContent(row, tenant, DELETION)
    requires b.rows == a.rows + [row] && TableInv(hs.link, b.rows) && KeysFresh(b)
    ensures ArchiveInv(hs, tenant, b)
  {
    JustifiedStays(a.rows, tenant, row);
  }

  lemma IngestKeepsInv(hs: Hashes, tenant: string, a: Archive, f: Fields, size: Option<nat>, text: string)
    requires ArchiveInv(hs, tenant, a)
    ensures ArchiveInv(hs, tenant, IngestRecord(hs, tenant, a, f, size, text))
    ensures a.rows <= IngestRecord(hs, tenant, a, f, size, text).rows
  {
    var row := NewRow(hs.link, ReadTip(a.rows, tenant), tenant, f, size);
    FreshTipWasRead(hs.link, a.rows, tenant);
    InsertOutcome(hs.link, a.rows, tenant, ReadTip(a.rows, tenant), f, size);
    if Appendable(tenant, f) && !IsContent(row, tenant, DELETION) && InsertRow(a.rows, row).Some? {
      if f.contentRef.Some? && Seal.GetDek(a.vault, tenant).Success? {
        StoreKeepsKeysFresh(a, f.contentRef.value, tenant, text, a.rows + [row]);
      }
      RowKeepsInv(hs, tenant, a, row, IngestRecord(hs, tenant, a, f, size, text));
    }
  }

  lemma RevealKeepsInv(hs: Hashes, tenant: string, a: Archive, f: Fields)
    requires ArchiveInv(hs, tenant, a) && f.recordType == REVEAL
    ensures var rows := AppendEvent(hs, a.rows, tenant, f).0;
            ArchiveInv(hs, tenant, a.(rows := rows)) && a.rows <= rows
  {
    AppendEventOutcome(hs, a.rows, tenant, f);
    var row := NewRow(hs.link, ReadTip(a.rows, tenant), tenant, f, None);
    assert REVEAL != DELETION;
    JustifiedStays(a.rows, tenant, row);
  }

  lemma DeleteKeepsInv(hs: Hashes, tenant: string, a: Archive, ms: seq<Row>, q: Request, fails: set<string>)
    requires ArchiveInv(hs, tenant, a) && q.scope != "tenant"
    requires forall m :: m in ms ==> m in a.rows && IsContent(m, tenant, MESSAGE)
    ensures var b := DeleteAll(hs, tenant, a, ms, q, fails).archive;
            ArchiveInv(hs, tenant, b) && a.rows <= b.rows && OnlyDeletes(a, b)
  {
    assert MessagesOf(ms, tenant, a.rows);
    DeleteAllOutcome(hs, tenant, a, ms, q, fails);
  }

  lemma ApplyKeepsInv(hs: Hashes, tenant: string, a: Archive, op: Op)
    requires ArchiveInv(hs, tenant, a)
    ensures ArchiveInv(hs, tenant, Apply(hs, tenant, a, op))
    ensures a.rows <= Apply(hs, tenant, a, op).rows
  {
    match op {
      case Ingest(f, size, text) => IngestKeepsInv(hs, tenant, a, f, size, text);
      case DeleteChat(chat, q, fails) =>
        DeleteKeepsInv(hs, tenant, a, ChatMessages(a.rows, tenant, chat), ChatRequest(q), fails);
      case DeleteUser(user, q, fails) =>
        DeleteKeepsInv(hs, tenant, a, UserMessages(a.rows, tenant, user), UserRequest(q, user), fails);
      case ShredTenant(q) => ShredKeepsInv(hs, tenant, a, q);
      case Reveal(uuid, now, d, subject) => RevealKeepsInv(hs, tenant, a, RevealEvent(hs, uuid, now, d, subject));
      case UseVault(action) => Seal.StepKeepsDeks(a.vault, action);
    }
  }

  lemma {:induction false} RunFromKeepsInv(hs: Hashes, tenant: string, a: Archive, ops: seq<Op>)
    requires ArchiveInv(hs, tenant, a)
    ensures ArchiveInv(hs, tenant, RunFrom(hs, tenant, a, ops))
    ensures a.rows <= RunFrom(hs, tenant, a, ops).rows
  {
    if ops != [] {
      RunFromKeepsInv(hs, tenant, a, ops[..|ops| - 1]);
      ApplyKeepsInv(hs, tenant, RunFrom(hs, tenant, a, ops[..|ops| - 1]), ops[|ops| - 1]);
    }
  }

  lemma EmptyInv(hs: Hashes, tenant: string)
    ensures ArchiveInv(hs, tenant, EMPTY)
  {
    forall t ensures WellChained(hs.link, t, OfTenant([], t)) {
      assert OfTenant([], t) == [];
    }
  }

  /** Over every run of captures, deletions, shreds and reveals: what was in the chain stays
      its prefix, the chain verifies, and the readers agree on every message and chat. */
  lemma DeletionIsAppendOnly(hs: Hashes, tenant: string, ops: seq<Op>, more: seq<Op>)
    ensures var a := RunFrom(hs, tenant, EMPTY, ops);
            var b := RunFrom(hs, tenant, a, more);
            && a.rows <= b.rows
            && Verify(hs.link, b.rows, tenant) == VerifyResult(true, |OfTenant(b.rows, tenant)|, None)
            && (forall chat, m :: m in ChatMessages(b.rows, tenant, chat) ==>
                  && (PurgedInDetail(b.rows, tenant, chat, m) <==> PurgedInExport(b.rows, tenant, m))
                  && (TenantShred(b.rows, tenant) || HasDeletionRow(b.rows, tenant, m)
                      <==> PurgedInExport(b.rows, tenant, m)))
            && (forall chat :: ChatMessages(b.rows, tenant, chat) != [] ==>
                  (ChatPurgedInList(b.rows, tenant, chat) <==> ChatPurgedInDetail(b.rows, tenant, chat)))
  {
    var a := RunFrom(hs, tenant, EMPTY, ops);
    var b := RunFrom(hs, tenant, a, more);
    EmptyInv(hs, tenant);
    RunFromKeepsInv(hs, tenant, EMPTY, ops);
    RunFromKeepsInv(hs, tenant, a, more);
    assert WellChained(hs.link, tenant, OfTenant(b.rows, tenant));
    WellChainedVerifies(hs.link, b.rows, tenant);
    forall chat, m | m in ChatMessages(b.rows, tenant, chat)
      ensures PurgedInDetail(b.rows, tenant, chat, m) <==> PurgedInExport(b.rows, tenant, m)
      ensures TenantShred(b.rows, tenant) || HasDeletionRow(b.rows, tenant, m) <==> PurgedInExport(b.rows, tenant, m)
    {
      MessageViewsAgree(hs, tenant, b, chat, m);
    }
    forall chat | ChatMessages(b.rows, tenant, chat) != []
      ensures ChatPurgedInList(b.rows, tenant, chat) <==> ChatPurgedInDetail(b.rows, tenant, chat)
    {
      ChatViewsAgree(hs, tenant, b, chat);
    }
  }

  // ---- Clean ids, derived from what was captured ----

  predicate CleanRun(ops: seq<Op>) {
    forall i :: 0 <= i < |ops| && ops[i].Ingest? ==> CleanId(ops[i].fields)
  }

  lemma RevealIsClean(hs: Hashes, uuid: string, now: string, d: Dict, subject: Option<string>)
    ensures CleanId(RevealEvent(hs, uuid, now, d, subject))
  {
    var id := "reveal:" + uuid;
    assert id[0] == 'r' && "deletion:"[0] == 'd' && "tenant"[0] == 't';
  }

  lemma AppendKeepsClean(hs: Hashes, rows: seq<Row>, tenant: string, f: Fields)
    requires CleanIds(rows) && CleanId(f)
    ensures CleanIds(AppendEvent(hs, rows, tenant, f).0)
  {
  }

  lemma DeleteKeepsClean(hs: Hashes, tenant: string, a: Archive, ms: seq<Row>, q: Request, fails: set<string>)
    requires ArchiveInv(hs, tenant, a) && CleanIds(a.rows) && q.scope != "tenant"
    requires forall m :: m in ms ==> m in a.rows && IsContent(m, tenant, MESSAGE)
    ensures CleanIds(DeleteAll(hs, tenant, a, ms, q, fails).archive.rows)
  {
    DeleteKeepsInv(hs, tenant, a, ms, q, fails);
  }

  lemma ApplyKeepsClean(hs: Hashes, tenant: string, a: Archive, op: Op)
    requires ArchiveInv(hs, tenant, a) && CleanIds(a.rows)
    requires op.Ingest? ==> CleanId(op.fields)
    ensures CleanIds(Apply(hs, tenant, a, op).rows)
  {
    match op {
      case Ingest(f, size, text) =>
      case DeleteChat(chat, q, fails) =>
        DeleteKeepsClean(hs, tenant, a, ChatMessages(a.rows, tenant, chat), ChatRequest(q), fails);
      case DeleteUser(user, q, fails) =>
        DeleteKeepsClean(hs, tenant, a, UserMessages(a.rows, tenant, user), UserRequest(q, user), fails);
      case ShredTenant(q) => AppendKeepsClean(hs, a.rows, tenant, TenantEvent(hs, q, tenant in a.vault.deks));
      case Reveal(uuid, now, d, subject) =>
        RevealIsClean(hs, uuid, now, d, subject);
        AppendKeepsClean(hs, a.rows, tenant, RevealEvent(hs, uuid, now, d, subject));
      case UseVault(_) =>
    }
  }

  lemma {:induction false} RunIsClean(hs: Hashes, tenant: string, ops: seq<Op>)
    requires CleanRun(ops)
    ensures ArchiveInv(hs, tenant, RunFrom(hs, tenant, EMPTY, ops)) && CleanIds(RunFrom(hs, tenant, EMPTY, ops).rows)
  {
    if ops == [] {
      EmptyInv(hs, tenant);
    } else {
      var init, op := ops[..|ops| - 1], ops[|ops| - 1];
      RunIsClean(hs, tenant, init);
      ApplyKeepsInv(hs, tenant, RunFrom(hs, tenant, EMPTY, init), op);
      ApplyKeepsClean(hs, tenant, RunFrom(hs, tenant, EMPTY, init), op);
    }
  }

  /** When every captured id is clean, no reachable state blocks a deletion or a shred. */
  lemma CleanRunsNeverBlock(hs: Hashes, tenant: string, ops: seq<Op>)
    requires CleanRun(ops)
    ensures var rows := RunFrom(hs, tenant, EMPTY, ops).rows;
            !ShredBlocked(rows, tenant) && forall m :: m in rows ==> !Blocked(rows, tenant, m)
  {
    RunIsClean(hs, tenant, ops);
    CleanIdsNeverBlock(hs, tenant, RunFrom(hs, tenant, EMPTY, ops));
  }

  // ---- Purged for good ----

  /** The messages an operation is to purge; a shred covers those captured later too. */
  predicate Covers(op: Op, rows: seq<Row>, tenant: string, m: Row) {
    match op
    case DeleteChat(chat, _, _) => m in ChatMessages(rows, tenant, chat)
    case DeleteUser(user, _, _) => m in UserMessages(rows, tenant, user)
    case ShredTenant(_) => IsContent(m, tenant, MESSAGE)
    case _ => false
  }

  /** Purged in the list, in the detail view of its chat, and in the export. */
  predicate PurgedEverywhere(rows: seq<Row>, tenant: string, m: Row) {
    && (TenantShred(rows, tenant) || HasDeletionRow(rows, tenant, m))
    && (ChatOf(m).Some? ==> PurgedInDetail(rows, tenant, ChatOf(m).value, m))
    && PurgedInExport(rows, tenant, m)
  }

  lemma PurgeStays(rows: seq<Row>, more: seq<Row>, tenant: string, m: Row)
    requires rows <= more
    ensures TenantShred(rows, tenant) ==> TenantShred(more, tenant)
    ensures PurgedInExport(rows, tenant, m) ==> PurgedInExport(more, tenant, m)
  {
    forall e | e in rows ensures e in more {
      StillThere(e, rows, more);
    }
  }

  lemma PurgedInAllViews(hs: Hashes, tenant: string, a: Archive, m: Row)
    requires ArchiveInv(hs, tenant, a) && m in a.rows && IsContent(m, tenant, MESSAGE)
    requires PurgedInExport(a.rows, tenant, m)
    ensures PurgedEverywhere(a.rows, tenant, m)
  {
    if !TenantShred(a.rows, tenant) {
      var e :| e in a.rows && IsContent(e, tenant, DELETION)
        && TextAt(e.fields.metadata, "deleted_external_id") == Some(m.fields.externalId);
      NamedRowIsItsEvent(hs, tenant, a, m, e);
    }
  }

  lemma CoveredIsPurged(hs: Hashes, tenant: string, a: Archive, op: Op, m: Row)
    requires ArchiveInv(hs, tenant, a) && !ShredBlocked(a.rows, tenant)
    requires Covers(op, a.rows, tenant, m) && (m in a.rows ==> !Blocked(a.rows, tenant, m))
    ensures var b := Apply(hs, tenant, a, op);
            TenantShred(b.rows, tenant) || (m in b.rows && PurgedInExport(b.rows, tenant, m))
  {
    match op {
      case DeleteChat(chat, q, fails) =>
        SelectedIsPurged(hs, tenant, a, ChatMessages(a.rows, tenant, chat), ChatRequest(q), fails, m);
      case DeleteUser(user, q, fails) =>
        SelectedIsPurged(hs, tenant, a, UserMessages(a.rows, tenant, user), UserRequest(q, user), fails, m);
      case ShredTenant(q) => ShredShows(hs, tenant, a, q);
    }
  }

  lemma SelectedIsPurged(hs: Hashes, tenant: string, a: Archive, ms: seq<Row>, q: Request, fails: set<string>, m: Row)
    requires ArchiveInv(hs, tenant, a) && q.scope != "tenant"
    requires forall r :: r in ms ==> r in a.rows && IsContent(r, tenant, MESSAGE)
    requires m in ms && !Blocked(a.rows, tenant, m)
    ensures var rows := DeleteAll(hs, tenant, a, ms, q, fails).archive.rows;
            m in rows && PurgedInExport(rows, tenant, m)
  {
    var k :| 0 <= k < |ms| && ms[k] == m;
    assert MessagesOf(ms, tenant, a.rows);
    DeletedMessagesArePurged(hs, tenant, a, ms, q, fails, k);
    DeleteAllOutcome(hs, tenant, a, ms, q, fails);
    StillThere(m, a.rows, DeleteAll(hs, tenant, a, ms, q, fails).archive.rows);
  }

  /** After any run of clean captures, a message that a deletion or a shred covered is purged in
      all three views from then on, whatever follows. */
  lemma PurgedForGood(hs: Hashes, tenant: string, ops: seq<Op>, op: Op, more: seq<Op>, m: Row)
    requires CleanRun(ops)
    requires Covers(op, RunFrom(hs, tenant, EMPTY, ops).rows, tenant, m)
    ensures var a := Apply(hs, tenant, RunFrom(hs, tenant, EMPTY, ops), op);
            PurgedEverywhere(RunFrom(hs, tenant, a, more).rows, tenant, m)
  {
    var before := RunFrom(hs, tenant, EMPTY, ops);
    var a := Apply(hs, tenant, before, op);
    var b := RunFrom(hs, tenant, a, more);
    RunIsClean(hs, tenant, ops);
    CleanRunsNeverBlock(hs, tenant, ops);
    CoveredIsPurged(hs, tenant, before, op, m);
    ApplyKeepsInv(hs, tenant, before, op);
    RunFromKeepsInv(hs, tenant, a, more);
    PurgeStays(a.rows, b.rows, tenant, m);
    if !TenantShred(b.rows, tenant) {
      StillThere(m, a.rows, b.rows);
      PurgedInAllViews(hs, tenant, b, m);
    }
  }

  // ---- Purged exactly when covered ----

  /** Some operation of the run covered the message when it happened. */
  predicate CoveredBy(hs: Hashes, tenant: string, ops: seq<Op>, m: Row) {
    ops != []
    && (var init := ops[..|ops| - 1];
        CoveredBy(hs, tenant, init, m) || Covers(ops[|ops| - 1], RunFrom(hs, tenant, EMPTY, init).rows, tenant, m))
  }

  /** No event names the message, and the tenant is not shredded. */
  predicate Unmarked(rows: seq<Row>, tenant: string, m: Row) {
    !PurgedInExport(rows, tenant, m)
  }

  /** A row that is no deletion event marks nothing. */
  lemma OtherRowsMarkNothing(rows: seq<Row>, r: Row, tenant: string, m: Row)
    requires !IsContent(r, tenant, DELETION) && Unmarked(rows, tenant, m)
    ensures Unmarked(rows + [r], tenant, m)
  {
  }

  /** The event of one message says nothing of another. */
  lemma EventOfAnother(hs: Hashes, tenant: string, rows: seq<Row>, d: Row, q: Request, m: Row)
    requires TableInv(hs.link, rows) && q.scope != "tenant" && d.fields.externalId != m.fields.externalId
    requires Unmarked(rows, tenant, m)
    ensures Unmarked(AppendEvent(hs, rows, tenant, MessageEvent(hs, d, q)).0, tenant, m)
  {
    var f := MessageEvent(hs, d, q);
    AppendEventOutcome(hs, rows, tenant, f);
    MessageEventMetadata(d.fields.externalId, ChatOf(d), q);
    var row := NewRow(hs.link, ReadTip(rows, tenant), tenant, f, None);
    assert forall e :: e in rows + [row] ==> e in rows || e == row;
  }

  /** Nor does the deletion of messages it is not among. */
  lemma {:induction false} DeletionOfOthers(hs: Hashes, tenant: string, a: Archive, ms: seq<Row>, q: Request,
                                            fails: set<string>, m: Row)
    requires ArchiveInv(hs, tenant, a) && q.scope != "tenant" && MessagesOf(ms, tenant, a.rows)
    requires forall i :: 0 <= i < |ms| ==> ms[i].fields.externalId != m.fields.externalId
    requires Unmarked(a.rows, tenant, m)
    ensures Unmarked(DeleteAll(hs, tenant, a, ms, q, fails).archive.rows, tenant, m)
  {
    if ms != [] {
      var init := ms[..|ms| - 1];
      SelectionSplits(ms, tenant, a.rows);
      DeletionOfOthers(hs, tenant, a, init, q, fails, m);
      DeleteAllOutcome(hs, tenant, a, init, q, fails);
      EventOfAnother(hs, tenant, DeleteAll(hs, tenant, a, init, q, fails).archive.rows, ms[|ms| - 1], q, m);
    }
  }

  lemma UncoveredByDeletion(hs: Hashes, tenant: string, a: Archive, ms: seq<Row>, q: Request, fails: set<string>,
                            m: Row, rows: seq<Row>)
    requires ArchiveInv(hs, tenant, a) && q.scope != "tenant" && a.rows <= rows && DedupUnique(rows)
    requires forall r :: r in ms ==> r in a.rows && IsContent(r, tenant, MESSAGE)
    requires m in rows && IsContent(m, tenant, MESSAGE) && m !in ms && Unmarked(a.rows, tenant, m)
    ensures Unmarked(DeleteAll(hs, tenant, a, ms, q, fails).archive.rows, tenant, m)
  {
    forall i | 0 <= i < |ms| ensures ms[i].fields.externalId != m.fields.externalId {
      StillThere(ms[i], a.rows, rows);
      if ms[i].fields.externalId == m.fields.externalId {
        DedupRowsAreEqual(rows, ms[i], m);
      }
    }
    DeletionOfOthers(hs, tenant, a, ms, q, fails, m);
  }

  lemma OtherRowMarksNothing(hs: Hashes, rows: seq<Row>, tenant: string, f: Fields, size: Option<nat>, m: Row)
    requires Unmarked(rows, tenant, m)
    ensures var after := InsertRow(rows, NewRow(hs.link, ReadTip(rows, tenant), tenant, f, size));
            !(f.sourceApi == CONTENT && f.recordType == DELETION) && after.Some? ==> Unmarked(after.value, tenant, m)
  {
    var row := NewRow(hs.link, ReadTip(rows, tenant), tenant, f, size);
    if !IsContent(row, tenant, DELETION) {
      OtherRowsMarkNothing(rows, row, tenant, m);
    }
  }

  lemma UncoveredStaysUnmarked(hs: Hashes, tenant: string, a: Archive, op: Op, m: Row, rows: seq<Row>)
    requires ArchiveInv(hs, tenant, a) && a.rows <= rows && DedupUnique(rows)
    requires m in rows && IsContent(m, tenant, MESSAGE)
    requires !Covers(op, a.rows, tenant, m) && Unmarked(a.rows, tenant, m)
    ensures Unmarked(Apply(hs, tenant, a, op).rows, tenant, m)
  {
    match op {
      case Ingest(f, size, text) => OtherRowMarksNothing(hs, a.rows, tenant, f, size, m);
      case DeleteChat(chat, q, fails) =>
        UncoveredByDeletion(hs, tenant, a, ChatMessages(a.rows, tenant, chat), ChatRequest(q), fails, m, rows);
      case DeleteUser(user, q, fails) =>
        UncoveredByDeletion(hs, tenant, a, UserMessages(a.rows, tenant, user), UserRequest(q, user), fails, m, rows);
      case Reveal(uuid, now, d, subject) =>
        OtherRowMarksNothing(hs, a.rows, tenant, RevealEvent(hs, uuid, now, d, subject), None, m);
      case UseVault(_) =>
    }
  }

  /** Nothing is purged that no operation covered, whatever the ids. */
  lemma {:induction false} PurgedMeansCovered(hs: Hashes, tenant: string, ops: seq<Op>, m: Row, rows: seq<Row>)
    requires RunFrom(hs, tenant, EMPTY, ops).rows <= rows && DedupUnique(rows)
    requires m in rows && IsContent(m, tenant, MESSAGE)
    ensures PurgedInExport(RunFrom(hs, tenant, EMPTY, ops).rows, tenant, m) ==> CoveredBy(hs, tenant, ops, m)
  {
    if ops != [] {
      var init, op := ops[..|ops| - 1], ops[|ops| - 1];
      var a := RunFrom(hs, tenant, EMPTY, init);
      EmptyInv(hs, tenant);
      RunFromKeepsInv(hs, tenant, EMPTY, init);
      ApplyKeepsInv(hs, tenant, a, op);
      PurgedMeansCovered(hs, tenant, init, m, rows);
      if !CoveredBy(hs, tenant, ops, m) {
        UncoveredStaysUnmarked(hs, tenant, a, op, m, rows);
      }
    }
  }

  lemma {:induction false} CoveredMeansPurged(hs: Hashes, tenant: string, ops: seq<Op>, m: Row)
    requires CleanRun(ops) && CoveredBy(hs, tenant, ops, m)
    ensures PurgedInExport(RunFrom(hs, tenant, EMPTY, ops).rows, tenant, m)
  {
    var init, op := ops[..|ops| - 1], ops[|ops| - 1];
    var a := RunFrom(hs, tenant, EMPTY, init);
    RunIsClean(hs, tenant, init);
    ApplyKeepsInv(hs, tenant, a, op);
    if CoveredBy(hs, tenant, init, m) {
      CoveredMeansPurged(hs, tenant, init, m);
      PurgeStays(a.rows, Apply(hs, tenant, a, op).rows, tenant, m);
    } else {
      PurgedForGood(hs, tenant, init, op, [], m);
    }
  }

  /** Over every run of clean captures a message is purged, in the list, in its chat and in the
      export, exactly when some deletion or shred of the run covered it. */
  lemma PurgedIffCovered(hs: Hashes, tenant: string, ops: seq<Op>, m: Row)
    requires CleanRun(ops) && m in RunFrom(hs, tenant, EMPTY, ops).rows && IsContent(m, tenant, MESSAGE)
    ensures var rows := RunFrom(hs, tenant, EMPTY, ops).rows;
            && (PurgedInExport(rows, tenant, m) <==> CoveredBy(hs, tenant, ops, m))
            && (TenantShred(rows, tenant) || HasDeletionRow(rows, tenant, m) <==> CoveredBy(hs, tenant, ops, m))
            && (ChatOf(m).Some? ==> (PurgedInDetail(rows, tenant, ChatOf(m).value, m)
                                     <==> CoveredBy(hs, tenant, ops, m)))
  {
    var b := RunFrom(hs, tenant, EMPTY, ops);
    RunIsClean(hs, tenant, ops);
    PurgedMeansCovered(hs, tenant, ops, m, b.rows);
    if CoveredBy(hs, tenant, ops, m) {
      CoveredMeansPurged(hs, tenant, ops, m);
      PurgedInAllViews(hs, tenant, b, m);
    } else {
      UnmarkedInAllViews(hs, tenant, b, m);
    }
  }

  lemma UnmarkedInAllViews(hs: Hashes, tenant: string, a: Archive, m: Row)
    requires ArchiveInv(hs, tenant, a) && m in a.rows && IsContent(m, tenant, MESSAGE)
    requires Unmarked(a.rows, tenant, m)
    ensures !TenantShred(a.rows, tenant) && !HasDeletionRow(a.rows, tenant, m)
    ensures ChatOf(m).Some? ==> !PurgedInDetail(a.rows, tenant, ChatOf(m).value, m)
  {
    if HasDeletionRow(a.rows, tenant, m) {
      var e :| e in a.rows && IsContent(e, tenant, DELETION)
          && e.fields.externalId == "deletion:" + m.fields.externalId;
      KeyedRowIsItsEvent(hs, tenant, a, m, e);
    }
  }

  /** No capture in these steps stores a blob under the reference. */
  predicate NotStoredAgain(ops: seq<Op>, ref: string) {
    forall i :: 0 <= i < |ops| && ops[i].Ingest? ==> ops[i].fields.contentRef != Some(ref)
  }

  /** A blob that is gone stays gone until a capture stores under its reference. */
  lemma {:induction false} BlobStaysGone(hs: Hashes, tenant: string, a: Archive, ops: seq<Op>, ref: string)
    requires ArchiveInv(hs, tenant, a) && ref !in a.blobs && NotStoredAgain(ops, ref)
    ensures ref !in RunFrom(hs, tenant, a, ops).blobs
  {
    if ops != [] {
      var init, op := ops[..|ops| - 1], ops[|ops| - 1];
      BlobStaysGone(hs, tenant, a, init, ref);
      RunFromKeepsInv(hs, tenant, a, init);
      var b := RunFrom(hs, tenant, a, init);
      match op {
        case DeleteChat(chat, q, fails) =>
          DeleteKeepsInv(hs, tenant, b, ChatMessages(b.rows, tenant, chat), ChatRequest(q), fails);
        case DeleteUser(user, q, fails) =>
          DeleteKeepsInv(hs, tenant, b, UserMessages(b.rows, tenant, user), UserRequest(q, user), fails);
        case _ =>
      }
    }
  }

  // ---- What becomes of a blob ----

  /** A record whose id is new is the chain's next row, its text stored under its reference and sealed
      under the tenant's key. */
  lemma IngestOutcome(hs: Hashes, tenant: string, a: Archive, f: Fields, size: Option<nat>, text: string)
    requires ArchiveInv(hs, tenant, a) && Appendable(tenant, f)
    requires f.recordType != DELETION && !DedupTaken(a.rows, tenant, f)
    ensures var b, dek := IngestRecord(hs, tenant, a, f, size, text), Seal.GetDek(a.vault, tenant);
            && b.rows == a.rows + [NewRow(hs.link, ReadTip(a.rows, tenant), tenant, f, size)]
            && (f.contentRef.Some? && dek.Success? ==>
                  f.contentRef.value in b.blobs && b.blobs[f.contentRef.value] == Blob(dek.value, text))
            && b.vault == a.vault
  {
    FreshTipWasRead(hs.link, a.rows, tenant);
    WellChainedTip(hs.link, a.rows, tenant);
    InsertOutcome(hs.link, a.rows, tenant, ReadTip(a.rows, tenant), f, size);
  }

  /** A capture is taken exactly by a tenant, with a 32-byte hash and an id of its own, and never as a
      deletion event; otherwise nothing changes. */
  lemma IngestAccepts(hs: Hashes, tenant: string, a: Archive, f: Fields, size: Option<nat>, text: string)
    requires ArchiveInv(hs, tenant, a)
    ensures var b := IngestRecord(hs, tenant, a, f, size, text);
            if tenant != "" && |f.contentHash| == 32 && !(f.sourceApi == CONTENT && f.recordType == DELETION)
               && !DedupTaken(a.rows, tenant, f)
            then |b.rows| == |a.rows| + 1
            else b == a
  {
    FreshTipWasRead(hs.link, a.rows, tenant);
    WellChainedTip(hs.link, a.rows, tenant);
    InsertOutcome(hs.link, a.rows, tenant, ReadTip(a.rows, tenant), f, size);
  }

  /** The event of one reveal. */
  predicate LogsReveal(hs: Hashes, e: Row, uuid: string, now: string, d: Dict, subject: Option<string>) {
    && e.fields.sourceApi == CONTENT && e.fields.recordType == "content_reveal"
    && e.fields.externalId == "reveal:" + uuid && e.fields.subjectUserId == subject
    && e.fields.occurredAt == now && e.fields.metadata == d
    && e.fields.contentHash == hs.sha256(Utf8.Encode(Dumps(d)))
  }

  lemma RevealRow(hs: Hashes, rows: seq<Row>, tenant: string, uuid: string, now: string, d: Dict,
                  subject: Option<string>)
    ensures LogsReveal(hs, NewRow(hs.link, ReadTip(rows, tenant), tenant, RevealEvent(hs, uuid, now, d, subject), None),
                       uuid, now, d, subject)
  {
  }

  lemma NewEventIsLast(hs: Hashes, tenant: string, rows: seq<Row>, f: Fields)
    requires TableInv(hs.link, rows) && !DedupTaken(rows, tenant, f)
    ensures AppendEvent(hs, rows, tenant, f).0 == rows + [NewRow(hs.link, ReadTip(rows, tenant), tenant, f, None)]
  {
    AppendEventOutcome(hs, rows, tenant, f);
  }

  /** A reveal is its own event in the chain, and touches nothing else. */
  lemma RevealIsLogged(hs: Hashes, tenant: string, a: Archive, uuid: string, now: string, d: Dict,
                       subject: Option<string>)
    requires ArchiveInv(hs, tenant, a)
    requires !DedupTaken(a.rows, tenant, RevealEvent(hs, uuid, now, d, subject))
    ensures var b := Apply(hs, tenant, a, Reveal(uuid, now, d, subject));
            && |b.rows| == |a.rows| + 1 && a.rows <= b.rows && b.blobs == a.blobs && b.vault == a.vault
            && LogsReveal(hs, b.rows[|a.rows|], uuid, now, d, subject)
  {
    NewEventIsLast(hs, tenant, a.rows, RevealEvent(hs, uuid, now, d, subject));
    RevealRow(hs, a.rows, tenant, uuid, now, d, subject);
  }

  lemma RunFromMore(hs: Hashes, tenant: string, a: Archive, ops: seq<Op>, op: Op)
    ensures RunFrom(hs, tenant, a, ops + [op]) == Apply(hs, tenant, RunFrom(hs, tenant, a, ops), op)
  {
    assert (ops + [op])[..|ops|] == ops;
  }

  lemma {:induction false} RunFromJoins(hs: Hashes, tenant: string, a: Archive, ops: seq<Op>, more: seq<Op>)
    ensures RunFrom(hs, tenant, a, ops + more) == RunFrom(hs, tenant, RunFrom(hs, tenant, a, ops), more)
  {
    if more == [] {
      assert ops + more == ops;
    } else {
      var init := more[..|more| - 1];
      RunFromJoins(hs, tenant, a, ops, init);
      RunFromMore(hs, tenant, a, ops + init, more[|more| - 1]);
      assert ops + more == (ops + init) + [more[|more| - 1]];
    }
  }

  /** The operation deletes a message whose blob is under this reference, and the store does not
      raise. */
  predicate Erases(op: Op, rows: seq<Row>, tenant: string, ref: string) {
    match op
    case DeleteChat(chat, _, fails) =>
      exists m :: m in rows && IsContent(m, tenant, MESSAGE) && ChatOf(m) == Some(chat) && Takes(m, fails, ref)
    case DeleteUser(user, _, fails) =>
      exists m :: m in rows && IsContent(m, tenant, MESSAGE) && m.fields.subjectUserId == Some(user)
                  && Takes(m, fails, ref)
    case _ => false
  }

  /** Some operation of the run from `a` on erased the blob when it happened. */
  predicate ErasedIn(hs: Hashes, tenant: string, a: Archive, ops: seq<Op>, ref: string) {
    ops != []
    && (var init := ops[..|ops| - 1];
        ErasedIn(hs, tenant, a, init, ref) || Erases(ops[|ops| - 1], RunFrom(hs, tenant, a, init).rows, tenant, ref))
  }

  lemma TakenBySelected(ms: seq<Row>, fails: set<string>, ref: string)
    ensures TakenBy(ms, fails, ref) <==> exists m :: m in ms && Takes(m, fails, ref)
  {
    if m :| m in ms && Takes(m, fails, ref) {
      var i :| 0 <= i < |ms| && ms[i] == m;
      assert Takes(ms[i], fails, ref);
    }
  }

  /** One operation that does not store under the reference leaves its blob exactly as it was,
      unless it erases it. */
  lemma ApplyKeepsBlob(hs: Hashes, tenant: string, a: Archive, op: Op, ref: string)
    requires ref in a.blobs && (op.Ingest? ==> op.fields.contentRef != Some(ref))
    ensures var b := Apply(hs, tenant, a, op);
            && (ref in b.blobs <==> !Erases(op, a.rows, tenant, ref))
            && (ref in b.blobs ==> b.blobs[ref] == a.blobs[ref])
  {
    match op {
      case DeleteChat(chat, q, fails) =>
        DeletedBlobsAreGone(hs, tenant, a, ChatMessages(a.rows, tenant, chat), ChatRequest(q), fails);
        TakenBySelected(ChatMessages(a.rows, tenant, chat), fails, ref);
      case DeleteUser(user, q, fails) =>
        DeletedBlobsAreGone(hs, tenant, a, UserMessages(a.rows, tenant, user), UserRequest(q, user), fails);
        TakenBySelected(UserMessages(a.rows, tenant, user), fails, ref);
      case _ =>
    }
  }

  /** Over any run that does not store under a reference again, its blob is there, as it was, exactly
      when no operation of the run erased it; a shred takes none. */
  lemma {:induction false} BlobIsKeptIffNotErased(hs: Hashes, tenant: string, a: Archive, ops: seq<Op>, ref: string)
    requires ArchiveInv(hs, tenant, a) && ref in a.blobs && NotStoredAgain(ops, ref)
    ensures var b := RunFrom(hs, tenant, a, ops);
            && (ref in b.blobs <==> !ErasedIn(hs, tenant, a, ops, ref))
            && (ref in b.blobs ==> b.blobs[ref] == a.blobs[ref])
  {
    if ops != [] {
      var init, op := ops[..|ops| - 1], ops[|ops| - 1];
      BlobIsKeptIffNotErased(hs, tenant, a, init, ref);
      var b := RunFrom(hs, tenant, a, init);
      if ref in b.blobs {
        ApplyKeepsBlob(hs, tenant, b, op, ref);
      } else {
        RunFromKeepsInv(hs, tenant, a, init);
        var last := [op];
        assert NotStoredAgain(last, ref) && last[..0] == [] && RunFrom(hs, tenant, b, []) == b;
        BlobStaysGone(hs, tenant, b, last, ref);
      }
    }
  }

  // ---- Unclean ids, in runs ----

  /** A captured message with this id, in this chat, at this time. */
  function Captured(id: string, chat: string, at: string): Fields {
    PrependMember("chat_id", Str(chat), NoMembers);
    Fields(MESSAGE, CONTENT, id, None, at, None, seq(32, _ => 0), Obj(Member("chat_id", Str(chat), NoMembers)))
  }

  function Capture(id: string, chat: string, at: string): Op {
    Ingest(Captured(id, chat, at), None, "")
  }

  lemma EventIsNoShred(hs: Hashes, tenant: string, rows: seq<Row>, m: Row, q: Request)
    requires TableInv(hs.link, rows) && q.scope != "tenant"
    ensures TenantShred(AppendEvent(hs, rows, tenant, MessageEvent(hs, m, q)).0, tenant) ==> TenantShred(rows, tenant)
  {
    var f := MessageEvent(hs, m, q);
    var after := AppendEvent(hs, rows, tenant, f).0;
    AppendEventOutcome(hs, rows, tenant, f);
    MessageEventMetadata(m.fields.externalId, ChatOf(m), q);
    if TenantShred(after, tenant) {
      var e :| e in after && IsContent(e, tenant, DELETION) && TextAt(e.fields.metadata, "scope") == Some("tenant");
      assert e in rows;
    }
  }

  /** Deleting messages shreds nothing. */
  lemma {:induction false} DeleteIsNoShred(hs: Hashes, tenant: string, a: Archive, ms: seq<Row>, q: Request,
                                           fails: set<string>)
    requires ArchiveInv(hs, tenant, a) && q.scope != "tenant" && MessagesOf(ms, tenant, a.rows)
    ensures TenantShred(DeleteAll(hs, tenant, a, ms, q, fails).archive.rows, tenant) ==> TenantShred(a.rows, tenant)
  {
    if ms != [] {
      var init, m := ms[..|ms| - 1], ms[|ms| - 1];
      SelectionSplits(ms, tenant, a.rows);
      DeleteIsNoShred(hs, tenant, a, init, q, fails);
      DeleteAllOutcome(hs, tenant, a, init, q, fails);
      EventIsNoShred(hs, tenant, DeleteAll(hs, tenant, a, init, q, fails).archive.rows, m, q);
    }
  }

  lemma FirstCapture(hs: Hashes, tenant: string, id: string, chat: string, at: string)
    requires tenant != ""
    ensures var a := RunFrom(hs, tenant, EMPTY, [Capture(id, chat, at)]);
            && ArchiveInv(hs, tenant, a) && |a.rows| == 1
            && a.rows[0].tenant == tenant && a.rows[0].fields == Captured(id, chat, at)
            && !TenantShred(a.rows, tenant)
  {
    EmptyInv(hs, tenant);
    assert [] + [Capture(id, chat, at)] == [Capture(id, chat, at)];
    RunFromMore(hs, tenant, EMPTY, [], Capture(id, chat, at));
    ApplyKeepsInv(hs, tenant, EMPTY, Capture(id, chat, at));
    IngestOutcome(hs, tenant, EMPTY, Captured(id, chat, at), None, "");
  }

  lemma CapturedChat(m: Row, id: string, chat: string, at: string)
    requires m.fields == Captured(id, chat, at)
    ensures ChatOf(m) == Some(chat)
  {
    assert Lookup(NoMembers, "chat_id") == None;
  }

  lemma TakenTenantKey(rows: seq<Row>, tenant: string, f: Fields)
    requires DedupTaken(rows, tenant, f) && !TenantShred(rows, tenant)
    requires f.sourceApi == CONTENT && f.externalId == "deletion:tenant"
    ensures ShredBlocked(rows, tenant)
  {
    var i :| 0 <= i < |rows| && SameDedupKey(rows[i], tenant, f);
    assert rows[i] in rows;
  }

  lemma EventKey(hs: Hashes, m: Row, q: Request)
    requires m.fields.externalId == "tenant"
    ensures MessageEvent(hs, m, q).sourceApi == CONTENT && MessageEvent(hs, m, q).externalId == "deletion:tenant"
  {
    assert "deletion:" + "tenant" == "deletion:tenant";
  }

  lemma DeletionTakesTenantKey(hs: Hashes, tenant: string, a: Archive, ms: seq<Row>, q: Request, fails: set<string>,
                               k: nat)
    requires ArchiveInv(hs, tenant, a) && q.scope != "tenant" && !TenantShred(a.rows, tenant)
    requires MessagesOf(ms, tenant, a.rows) && k < |ms| && ms[k].fields.externalId == "tenant"
    ensures ShredBlocked(DeleteAll(hs, tenant, a, ms, q, fails).archive.rows, tenant)
  {
    DeleteAllTakesKeys(hs, tenant, a, ms, q, fails);
    DeleteIsNoShred(hs, tenant, a, ms, q, fails);
    EventKey(hs, ms[k], q);
    TakenTenantKey(DeleteAll(hs, tenant, a, ms, q, fails).archive.rows, tenant, MessageEvent(hs, ms[k], q));
  }

  lemma ChatTakesTenantKey(hs: Hashes, tenant: string, a: Archive, chat: string, q: Request, fails: set<string>, m: Row)
    requires ArchiveInv(hs, tenant, a) && !TenantShred(a.rows, tenant)
    requires m in ChatMessages(a.rows, tenant, chat) && m.fields.externalId == "tenant"
    ensures ShredBlocked(Apply(hs, tenant, a, DeleteChat(chat, q, fails)).rows, tenant)
  {
    var ms := ChatMessages(a.rows, tenant, chat);
    var k :| 0 <= k < |ms| && ms[k] == m;
    assert MessagesOf(ms, tenant, a.rows);
    DeletionTakesTenantKey(hs, tenant, a, ms, ChatRequest(q), fails, k);
  }

  lemma ShredStaysHidden(hs: Hashes, tenant: string, a: Archive, q: Request)
    requires ArchiveInv(hs, tenant, a) && ShredBlocked(a.rows, tenant)
    ensures !TenantShred(Apply(hs, tenant, a, ShredTenant(q)).rows, tenant)
  {
    ShredShows(hs, tenant, a, q);
  }

  /** The deletion of a message with id "tenant" takes the place of a shred's event: the shred
      then shows in no view. */
  lemma MessageNamedTenantHidesShred(hs: Hashes, tenant: string, chat: string, at: string, q: Request,
                                     fails: set<string>, q': Request)
    requires tenant != ""
    ensures var ops := [Capture("tenant", chat, at)] + [DeleteChat(chat, q, fails)] + [ShredTenant(q')];
            !TenantShred(RunFrom(hs, tenant, EMPTY, ops).rows, tenant)
  {
    var one := [Capture("tenant", chat, at)];
    FirstCapture(hs, tenant, "tenant", chat, at);
    RunFromMore(hs, tenant, EMPTY, one, DeleteChat(chat, q, fails));
    RunFromMore(hs, tenant, EMPTY, one + [DeleteChat(chat, q, fails)], ShredTenant(q'));
    var a := RunFrom(hs, tenant, EMPTY, one);
    CapturedChat(a.rows[0], "tenant", chat, at);
    ApplyKeepsInv(hs, tenant, a, DeleteChat(chat, q, fails));
    ChatTakesTenantKey(hs, tenant, a, chat, q, fails, a.rows[0]);
    ShredStaysHidden(hs, tenant, Apply(hs, tenant, a, DeleteChat(chat, q, fails)), q');
  }

  lemma SecondCapture(hs: Hashes, tenant: string, chat: string, id: string, id': string, at: string)
    requires tenant != "" && id != id'
    ensures var a := RunFrom(hs, tenant, EMPTY, [Capture(id, chat, at)] + [Capture(id', chat, at)]);
            && ArchiveInv(hs, tenant, a) && |a.rows| == 2
            && a.rows[0].tenant == tenant && a.rows[0].fields == Captured(id, chat, at)
            && a.rows[1].tenant == tenant && a.rows[1].fields == Captured(id', chat, at)
            && !TenantShred(a.rows, tenant)
  {
    var one := [Capture(id, chat, at)];
    FirstCapture(hs, tenant, id, chat, at);
    RunFromMore(hs, tenant, EMPTY, one, Capture(id', chat, at));
    var a := RunFrom(hs, tenant, EMPTY, one);
    ApplyKeepsInv(hs, tenant, a, Capture(id', chat, at));
    IngestOutcome(hs, tenant, a, Captured(id', chat, at), None, "");
  }

  lemma BlockedSelection(hs: Hashes, tenant: string, a: Archive, ms: seq<Row>, q: Request, fails: set<string>, m: Row)
    requires ArchiveInv(hs, tenant, a) && !TenantShred(a.rows, tenant) && q.scope != "tenant"
    requires MessagesOf(ms, tenant, a.rows) && m in ms && Blocked(a.rows, tenant, m)
    ensures var rows := DeleteAll(hs, tenant, a, ms, q, fails).archive.rows;
            m in rows && !PurgedInExport(rows, tenant, m)
  {
    var k :| 0 <= k < |ms| && ms[k] == m;
    DeletedMessagesArePurged(hs, tenant, a, ms, q, fails, k);
    DeleteIsNoShred(hs, tenant, a, ms, q, fails);
    DeleteAllOutcome(hs, tenant, a, ms, q, fails);
    StillThere(m, a.rows, DeleteAll(hs, tenant, a, ms, q, fails).archive.rows);
  }

  lemma BlockedStaysVisible(hs: Hashes, tenant: string, a: Archive, chat: string, q: Request, fails: set<string>,
                            m: Row)
    requires ArchiveInv(hs, tenant, a) && !TenantShred(a.rows, tenant)
    requires m in ChatMessages(a.rows, tenant, chat) && Blocked(a.rows, tenant, m)
    ensures var rows := Apply(hs, tenant, a, DeleteChat(chat, q, fails)).rows;
            m in ChatMessages(rows, tenant, chat) && !PurgedInExport(rows, tenant, m)
  {
    var ms := ChatMessages(a.rows, tenant, chat);
    assert MessagesOf(ms, tenant, a.rows);
    BlockedSelection(hs, tenant, a, ms, ChatRequest(q), fails, m);
  }

  /** A captured id in the deletion namespace: the message it names is deleted, and still not
      purged in the export. */
  lemma CapturedDeletionIdHidesDelete(hs: Hashes, tenant: string, chat: string, id: string, at: string, q: Request,
                                      fails: set<string>)
    requires tenant != ""
    ensures var ops := [Capture("deletion:" + id, chat, at)] + [Capture(id, chat, at)] + [DeleteChat(chat, q, fails)];
            var rows := RunFrom(hs, tenant, EMPTY, ops).rows;
            exists m :: m in ChatMessages(rows, tenant, chat) && m.fields == Captured(id, chat, at)
                        && !PurgedInExport(rows, tenant, m)
  {
    var two := [Capture("deletion:" + id, chat, at)] + [Capture(id, chat, at)];
    assert |"deletion:" + id| > |id|;
    SecondCapture(hs, tenant, chat, "deletion:" + id, id, at);
    RunFromMore(hs, tenant, EMPTY, two, DeleteChat(chat, q, fails));
    var a := RunFrom(hs, tenant, EMPTY, two);
    CapturedChat(a.rows[1], id, chat, at);
    assert a.rows[0] in a.rows && a.rows[1] in a.rows;
    BlockedStaysVisible(hs, tenant, a, chat, q, fails, a.rows[1]);
  }

  /** Whether the stored bytes of a reference can still be opened. */
  predicate Readable(tenant: string, a: Archive, b: Blob) {
    Seal.GetDek(a.vault, tenant) == Success(b.key)
  }

  lemma {:induction false} LaterKeysAreNew(hs: Hashes, tenant: string, a: Archive, ops: seq<Op>, n: nat)
    requires ArchiveInv(hs, tenant, a) && Seal.DrawnSince(a.vault, tenant, n)
    ensures Seal.DrawnSince(RunFrom(hs, tenant, a, ops).vault, tenant, n)
  {
    if ops != [] {
      var init, op := ops[..|ops| - 1], ops[|ops| - 1];
      LaterKeysAreNew(hs, tenant, a, init, n);
      RunFromKeepsInv(hs, tenant, a, init);
      var b := RunFrom(hs, tenant, a, init);
      match op {
        case DeleteChat(chat, q, fails) =>
          DeleteKeepsInv(hs, tenant, b, ChatMessages(b.rows, tenant, chat), ChatRequest(q), fails);
        case DeleteUser(user, q, fails) =>
          DeleteKeepsInv(hs, tenant, b, UserMessages(b.rows, tenant, user), UserRequest(q, user), fails);
        case ShredTenant(q) => Seal.StepKeepsDrawnSince(b.vault, Seal.DestroyKey(tenant), tenant, n);
        case UseVault(action) => Seal.StepKeepsDrawnSince(b.vault, action, tenant, n);
        case _ =>
      }
    }
  }

  /** A shred is terminal: no blob stored before it opens again, whatever follows, even
      after a new key is provisioned. */
  lemma ShredIsTerminal(hs: Hashes, tenant: string, ops: seq<Op>, q: Request, more: seq<Op>)
    ensures var a := RunFrom(hs, tenant, EMPTY, ops);
            var b := RunFrom(hs, tenant, Shred(hs, tenant, a, q), more);
            forall ref :: ref in a.blobs ==> !Readable(tenant, b, a.blobs[ref])
  {
    var a := RunFrom(hs, tenant, EMPTY, ops);
    EmptyInv(hs, tenant);
    RunFromKeepsInv(hs, tenant, EMPTY, ops);
    ShredKeepsInv(hs, tenant, a, q);
    LaterKeysAreNew(hs, tenant, Shred(hs, tenant, a, q), more, a.vault.keysMade);
  }
}
