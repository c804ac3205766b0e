/**
 Chain-safe deletion of captured content: blobs or the tenant key are destroyed,
 and each deletion is itself appended to the chain.  Three readers (chat list,
 chat detail, export) work out from those events what is purged.
 */
module Deletion {
  import opened Wrappers
  import opened Json
  import opened CanonicalRecord
  import opened Chain
  import Seal
  import Utf8

  const CONTENT := "compliance_content"
  const MESSAGE := "chat_message"
  const DELETION := "content_deletion"
  const REVEAL := "content_reveal"

  type Hash32 = b: seq<byte> | |b| == 32 witness seq(32, _ => 0)

  /** The two hash functions in use. */
  datatype Hashes = Hashes(link: HashFn, sha256: seq<byte> -> Hash32)

  /** A sealed content blob: the key it was sealed under and its text. */
  datatype Blob = Blob(key: nat, text: string)

  /** The table, one tenant's object store, and the vault that holds its data key. */
  datatype Archive = Archive(rows: seq<Row>, blobs: map<string, Blob>, vault: Seal.Vault)

  // ---- JSON extraction ----

  function Lookup(ms: Members, key: string): Option<Json> {
    match ms
    case NoMembers => None
    case Member(k, v, more) => if k == key then Some(v) else Lookup(more, key)
  }

  /** `metadata->>'key'`: a missing key and a JSON null are both SQL NULL. */
  function TextAt(d: Dict, key: string): Option<string> {
    match Lookup(d.members, key)
    case None => None
    case Some(Null) => None
    case Some(Str(s)) => Some(s)
    case Some(v) => Some(Text(v))
  }

  // ---- Events ----

  /** Who asked for a deletion, why, when and with which scope. */
  datatype Request = Request(scope: string, reason: string, requestedBy: string, now: string,
                             dsrSubject: Option<string>)

  function DeletedBy(q: Request): Members {
    Member("requested_by", Str(q.requestedBy), Member("deleted_at", Str(q.now),
      match q.dsrSubject
      case None => NoMembers
      case Some(s) => Member("dsr_subject", Str(s), NoMembers)))
  }

  function MessageEventMembers(externalId: string, chatId: Option<string>, q: Request): Members {
    Member("deleted_external_id", Str(externalId),
    Member("deleted_record_type", Str(MESSAGE),
    Member("chat_id", OptionalStr(chatId),
    Member("scope", Str(q.scope),
    Member("reason", Str(q.reason), DeletedBy(q))))))
  }

  function TenantEventMembers(q: Request, dekDestroyed: bool): Members {
    Member("scope", Str("tenant"),
    Member("reason", Str(q.reason),
    Member("requested_by", Str(q.requestedBy),
    Member("deleted_at", Str(q.now),
    Member("dek_destroyed", Bool(dekDestroyed), NoMembers)))))
  }

  lemma DeletedByIsWellFormed(q: Request)
    ensures WellFormedMembers(DeletedBy(q))
    ensures MembersMean(DeletedBy(q)).Keys <= {"requested_by", "deleted_at", "dsr_subject"}
  {
    var m6 := DeletedBy(q);
    var m7 := m6.rest;
    if m7.rest.Member? {
      PrependMember(m7.rest.key, m7.rest.value, NoMembers);
    }
    PrependMember(m7.key, m7.value, m7.rest);
    PrependMember(m6.key, m6.value, m7);
  }

  lemma MessageEventIsWellFormed(externalId: string, chatId: Option<string>, q: Request)
    ensures WellFormed(Obj(MessageEventMembers(externalId, chatId, q)))
  {
    var m1 := MessageEventMembers(externalId, chatId, q);
    var m2 := m1.rest;
    var m3 := m2.rest;
    var m4 := m3.rest;
    var m5 := m4.rest;
    DeletedByIsWellFormed(q);
    PrependMember(m5.key, m5.value, m5.rest);
    PrependMember(m4.key, m4.value, m5);
    PrependMember(m3.key, m3.value, m4);
    PrependMember(m2.key, m2.value, m3);
    PrependMember(m1.key, m1.value, m2);
  }

  lemma DeletedByMetadata(q: Request)
    ensures var ms := DeletedBy(q);
            && Lookup(ms, "requested_by") == Some(Str(q.requestedBy)) && Lookup(ms, "deleted_at") == Some(Str(q.now))
            && Lookup(ms, "dsr_subject") == (match q.dsrSubject case None => None case Some(s) => Some(Str(s)))
  {
    assert Lookup(NoMembers, "dsr_subject") == None;
    assert Lookup(DeletedBy(q).rest.rest, "dsr_subject")
        == (match q.dsrSubject case None => None case Some(s) => Some(Str(s)));
  }

  /** The metadata of a message's event names the message, its chat and the request. */
  lemma MessageEventMetadata(externalId: string, chatId: Option<string>, q: Request)
    ensures WellFormed(Obj(MessageEventMembers(externalId, chatId, q)))
    ensures var d := Obj(MessageEventMembers(externalId, chatId, q));
            && TextAt(d, "deleted_external_id") == Some(externalId)
            && TextAt(d, "deleted_record_type") == Some("chat_message")
            && TextAt(d, "chat_id") == chatId
            && TextAt(d, "scope") == Some(q.scope)
            && TextAt(d, "reason") == Some(q.reason)
            && TextAt(d, "requested_by") == Some(q.requestedBy)
            && TextAt(d, "deleted_at") == Some(q.now)
            && TextAt(d, "dsr_subject") == q.dsrSubject
  {
    MessageEventIsWellFormed(externalId, chatId, q);
    DeletedByMetadata(q);
    var m2 := MessageEventMembers(externalId, chatId, q).rest;
    var m3 := m2.rest;
    var m4 := m3.rest;
    var m5 := m4.rest;
    forall key | key in {"requested_by", "deleted_at", "dsr_subject"}
      ensures Lookup(m2, key) == Lookup(DeletedBy(q), key)
    {
      assert Lookup(m5, key) == Lookup(DeletedBy(q), key);
      assert Lookup(m4, key) == Lookup(m5, key);
      assert Lookup(m3, key) == Lookup(m4, key);
    }
    assert Lookup(m2, "deleted_record_type") == Some(Str(MESSAGE));
    assert Lookup(m4, "reason") == Some(Str(q.reason));
    assert Lookup(m3, "reason") == Some(Str(q.reason));
    assert Lookup(m2, "reason") == Some(Str(q.reason));
    assert Lookup(m3, "scope") == Some(Str(q.scope));
    assert Lookup(m2, "scope") == Some(Str(q.scope));
    assert Lookup(m2, "chat_id") == Some(OptionalStr(chatId));
  }

  lemma TenantEventMetadata(q: Request, dekDestroyed: bool)
    ensures var d := Obj(TenantEventMembers(q, dekDestroyed));
            && WellFormed(d)
            && TextAt(d, "deleted_external_id") == None && TextAt(d, "chat_id") == None
            && TextAt(d, "scope") == Some("tenant")
            && TextAt(d, "reason") == Some(q.reason)
            && TextAt(d, "requested_by") == Some(q.requestedBy)
            && TextAt(d, "deleted_at") == Some(q.now)
            && Lookup(d.members, "dek_destroyed") == Some(Bool(dekDestroyed))
  {
    var m1 := TenantEventMembers(q, dekDestroyed);
    var m2 := m1.rest;
    var m3 := m2.rest;
    var m4 := m3.rest;
    var m5 := m4.rest;
    PrependMember(m5.key, m5.value, NoMembers);
    PrependMember(m4.key, m4.value, m5);
    PrependMember(m3.key, m3.value, m4);
    PrependMember(m2.key, m2.value, m3);
    PrependMember(m1.key, m1.value, m2);
    forall key | key in {"deleted_external_id", "chat_id", "deleted_at", "dek_destroyed"}
      ensures Lookup(m1, key) == Lookup(m4, key)
    {
      assert Lookup(m3, key) == Lookup(m4, key);
      assert Lookup(m2, key) == Lookup(m3, key);
    }
    assert Lookup(m5, "dek_destroyed") == Some(Bool(dekDestroyed));
    assert Lookup(m4, "dek_destroyed") == Some(Bool(dekDestroyed));
    assert Lookup(m5, "deleted_external_id") == None && Lookup(m5, "chat_id") == None;
    assert Lookup(m2, "reason") == Some(Str(q.reason));
    assert Lookup(m2, "requested_by") == Some(Str(q.requestedBy));
  }

  /** `_deletion_content_hash` */
  function EventHash(hs: Hashes, d: Dict): Hash32 {
    hs.sha256(Utf8.Encode(Dumps(d)))
  }

  function MessageEvent(hs: Hashes, m: Row, q: Request): Fields {
    var chatId := TextAt(m.fields.metadata, "chat_id");
    MessageEventMetadata(m.fields.externalId, chatId, q);
    var d: Dict := Obj(MessageEventMembers(m.fields.externalId, chatId, q));
    Fields(DELETION, CONTENT, "deletion:" + m.fields.externalId, m.fields.subjectUserId, q.now, None,
           EventHash(hs, d), d)
  }

  function TenantEvent(hs: Hashes, q: Request, dekDestroyed: bool): Fields {
    TenantEventMetadata(q, dekDestroyed);
    var d: Dict := Obj(TenantEventMembers(q, dekDestroyed));
    Fields(DELETION, CONTENT, "deletion:tenant", None, q.now, None, EventHash(hs, d), d)
  }

  /** A reveal: `uuid` keeps its external id unique, so it is never a duplicate. */
  function RevealEvent(hs: Hashes, uuid: string, now: string, d: Dict, subject: Option<string>): Fields {
    Fields(REVEAL, CONTENT, "reveal:" + uuid, subject, now, None, EventHash(hs, d), d)
  }

  // ---- Operations ----

  /** `_append_deletion_event`: False when the insert raises IntegrityError. */
  function AppendEvent(hs: Hashes, rows: seq<Row>, tenant: string, f: Fields): (seq<Row>, bool) {
    match InsertRow(rows, NewRow(hs.link, ReadTip(rows, tenant), tenant, f, None))
    case None => (rows, false)
    case Some(after) => (after, true)
  }

  predicate IsContent(r: Row, tenant: string, recordType: string) {
    r.tenant == tenant && r.fields.sourceApi == CONTENT && r.fields.recordType == recordType
  }

  /** The rows a WHERE clause keeps, in table order. */
  function Select(rows: seq<Row>, p: Row -> bool): (r: seq<Row>)
    ensures forall m :: m in r <==> m in rows && p(m)
  {
    if rows == [] then []
    else
      var last := rows[|rows| - 1];
      assert rows == rows[..|rows| - 1] + [last];
      Select(rows[..|rows| - 1], p) + if p(last) then [last] else []
  }

  /** Each as often as it occurs. */
  lemma {:induction false} SelectRepeatsNothing(rows: seq<Row>, p: Row -> bool)
    ensures forall m :: multiset(Select(rows, p))[m] == if p(m) then multiset(rows)[m] else 0
  {
    if rows != [] {
      var init, last := rows[..|rows| - 1], rows[|rows| - 1];
      SelectRepeatsNothing(init, p);
      assert rows == init + [last];
    }
  }

  function ChatOf(r: Row): Option<string> {
    TextAt(r.fields.metadata, "chat_id")
  }

  function ChatMessages(rows: seq<Row>, tenant: string, chat: string): (ms: seq<Row>)
    ensures forall m :: m in ms <==> m in rows && IsContent(m, tenant, MESSAGE) && ChatOf(m) == Some(chat)
  {
    Select(rows, (r: Row) => IsContent(r, tenant, MESSAGE) && ChatOf(r) == Some(chat))
  }

  function UserMessages(rows: seq<Row>, tenant: string, user: string): (ms: seq<Row>)
    ensures forall m ::
              m in ms <==> m in rows && IsContent(m, tenant, MESSAGE) && m.fields.subjectUserId == Some(user)
  {
    Select(rows, (r: Row) => IsContent(r, tenant, MESSAGE) && r.fields.subjectUserId == Some(user))
  }

  /** Removing a message's blob: `fails` are the references whose removal raises. */
  function DropBlob(blobs: map<string, Blob>, m: Row, fails: set<string>): map<string, Blob> {
    if m.fields.contentRef.Some? && m.fields.contentRef.value != "" && m.fields.contentRef.value !in fails then
      blobs - {m.fields.contentRef.value}
    else blobs
  }

  /** One message: first the blob, then the event. */
  function DeleteOne(hs: Hashes, tenant: string, a: Archive, m: Row, q: Request, fails: set<string>): (Archive, bool) {
    var (rows, added) := AppendEvent(hs, a.rows, tenant, MessageEvent(hs, m, q));
    (a.(rows := rows, blobs := DropBlob(a.blobs, m, fails)), added)
  }

  datatype Tally = Tally(archive: Archive, deleted: nat, already: nat)

  function DeleteNext(hs: Hashes, tenant: string, t: Tally, m: Row, q: Request, fails: set<string>): Tally {
    var (after, added) := DeleteOne(hs, tenant, t.archive, m, q, fails);
    if added then Tally(after, t.deleted + 1, t.already) else Tally(after, t.deleted, t.already + 1)
  }

  /** `_delete_message_records` over the first rows of a selection. */
  function DeleteAll(hs: Hashes, tenant: string, a: Archive, ms: seq<Row>, q: Request, fails: set<string>): Tally {
    if ms == [] then Tally(a, 0, 0)
    else
      DeleteNext(hs, tenant, DeleteAll(hs, tenant, a, ms[..|ms| - 1], q, fails), ms[|ms| - 1], q, fails)
  }

  /** `crypto_shred_tenant` */
  function Shred(hs: Hashes, tenant: string, a: Archive, q: Request): Archive {
    var (rows, _) := AppendEvent(hs, a.rows, tenant, TenantEvent(hs, q, tenant in a.vault.deks));
    a.(rows := rows, vault := Seal.Destroy(a.vault, tenant))
  }

  // ---- The three readers ----

  predicate TenantShred(rows: seq<Row>, tenant: string) {
    exists e :: e in rows && IsContent(e, tenant, DELETION) && TextAt(e.fields.metadata, "scope") == Some("tenant")
  }

  /** The chat list joins on the event's external id. */
  predicate HasDeletionRow(rows: seq<Row>, tenant: string, m: Row) {
    exists e :: e in rows && IsContent(e, tenant, DELETION) && e.fields.externalId == "deletion:" + m.fields.externalId
  }

  predicate ChatPurgedInList(rows: seq<Row>, tenant: string, chat: string) {
    TenantShred(rows, tenant) || forall m :: m in ChatMessages(rows, tenant, chat) ==> HasDeletionRow(rows, tenant, m)
  }

  /** The detail view collects deleted ids from the events that name its chat. */
  predicate PurgedInDetail(rows: seq<Row>, tenant: string, chat: string, m: Row) {
    || TenantShred(rows, tenant)
    || exists e :: e in rows && IsContent(e, tenant, DELETION)
         && (ChatOf(e) == Some(chat) || TextAt(e.fields.metadata, "scope") == Some("tenant"))
         && TextAt(e.fields.metadata, "deleted_external_id") == Some(m.fields.externalId)
  }

  predicate ChatPurgedInDetail(rows: seq<Row>, tenant: string, chat: string) {
    || TenantShred(rows, tenant)
    || (ChatMessages(rows, tenant, chat) != []
        && forall m :: m in ChatMessages(rows, tenant, chat) ==> PurgedInDetail(rows, tenant, chat, m))
  }

  /** The export collects them from all events. */
  predicate PurgedInExport(rows: seq<Row>, tenant: string, m: Row) {
    || TenantShred(rows, tenant)
    || exists e :: e in rows && IsContent(e, tenant, DELETION)
         && TextAt(e.fields.metadata, "deleted_external_id") == Some(m.fields.externalId)
  }

  // ---- The invariant of the event rows ----

  predicate IsTenantEvent(e: Row) {
    && e.fields.externalId == "deletion:tenant"
    && TextAt(e.fields.metadata, "scope") == Some("tenant")
    && TextAt(e.fields.metadata, "deleted_external_id") == None
    && TextAt(e.fields.metadata, "deleted_at").Some?
  }

  predicate IsEventOf(e: Row, m: Row) {
    && e.fields.externalId == "deletion:" + m.fields.externalId
    && TextAt(e.fields.metadata, "deleted_external_id") == Some(m.fields.externalId)
    && ChatOf(e) == ChatOf(m)
    && TextAt(e.fields.metadata, "scope") != Some("tenant")
    && TextAt(e.fields.metadata, "deleted_at").Some?
  }

  predicate EventIsJustified(rows: seq<Row>, tenant: string, e: Row) {
    IsTenantEvent(e) || exists m :: m in rows && IsContent(m, tenant, MESSAGE) && IsEventOf(e, m)
  }

  ghost predicate EventsJustified(rows: seq<Row>, tenant: string) {
    forall e :: e in rows && IsContent(e, tenant, DELETION) ==> EventIsJustified(rows, tenant, e)
  }

  ghost predicate KeysFresh(a: Archive) {
    && Seal.DeksOk(a.vault)
    && forall ref :: ref in a.blobs ==> a.blobs[ref].key < a.vault.keysMade
  }

  ghost predicate ArchiveInv(hs: Hashes, tenant: string, a: Archive) {
    TableInv(hs.link, a.rows) && EventsJustified(a.rows, tenant) && KeysFresh(a)
  }

  lemma AppendEventOutcome(hs: Hashes, rows: seq<Row>, tenant: string, f: Fields)
    requires TableInv(hs.link, rows)
    ensures var (after, added) := AppendEvent(hs, rows, tenant, f);
            && (added <==> !DedupTaken(rows, tenant, f))
            && after == (if added then rows + [NewRow(hs.link, ReadTip(rows, tenant), tenant, f, None)] else rows)
            && TableInv(hs.link, after)
            && DedupTaken(after, tenant, f)
  {
    FreshTipWasRead(hs.link, rows, tenant);
    WellChainedTip(hs.link, rows, tenant);
    InsertOutcome(hs.link, rows, tenant, ReadTip(rows, tenant), f, None);
    var (after, added) := AppendEvent(hs, rows, tenant, f);
    if added {
      assert SameDedupKey(after[|rows|], tenant, f);
    }
  }

  lemma JustifiedStays(rows: seq<Row>, tenant: string, r: Row)
    requires EventsJustified(rows, tenant)
    requires IsContent(r, tenant, DELETION) ==> EventIsJustified(rows, tenant, r)
    ensures EventsJustified(rows + [r], tenant)
  {
    forall e | e in rows + [r] && IsContent(e, tenant, DELETION) ensures EventIsJustified(rows + [r], tenant, e) {
      assert EventIsJustified(rows, tenant, e);
      if !IsTenantEvent(e) {
        var m :| m in rows && IsContent(m, tenant, MESSAGE) && IsEventOf(e, m);
        assert m in rows + [r];
      }
    }
  }

  /** Rows that a deletion adds are deletion events; blobs only disappear. */
  ghost predicate OnlyDeletes(a: Archive, b: Archive) {
    && a.rows <= b.rows
    && (forall r :: r in b.rows ==> r in a.rows || r.fields.recordType == DELETION)
    && b.blobs.Keys <= a.blobs.Keys && (forall ref :: ref in b.blobs ==> b.blobs[ref] == a.blobs[ref])
    && b.vault == a.vault
  }

  /** A selection of the tenant's messages. */
  ghost predicate MessagesOf(ms: seq<Row>, tenant: string, rows: seq<Row>) {
    forall i :: 0 <= i < |ms| ==> ms[i] in rows && IsContent(ms[i], tenant, MESSAGE)
  }

  lemma SelectionSplits(ms: seq<Row>, tenant: string, rows: seq<Row>)
    requires ms != [] && MessagesOf(ms, tenant, rows)
    ensures MessagesOf(ms[..|ms| - 1], tenant, rows)
    ensures ms[|ms| - 1] in rows && IsContent(ms[|ms| - 1], tenant, MESSAGE)
  {
  }

  lemma StillThere(m: Row, rows: seq<Row>, more: seq<Row>)
    requires rows <= more && m in rows
    ensures m in more
  {
    var i :| 0 <= i < |rows| && rows[i] == m;
    assert more[i] == m;
  }

  /** Deleting this message takes the blob under this reference: it has one there, and the store
      does not raise. */
  predicate Takes(m: Row, fails: set<string>, ref: string) {
    m.fields.contentRef == Some(ref) && ref != "" && ref !in fails
  }

  predicate TakenBy(ms: seq<Row>, fails: set<string>, ref: string) {
    exists i :: 0 <= i < |ms| && Takes(ms[i], fails, ref)
  }

  /** Exactly the blobs of these messages are gone; every other one is there, as it was. */
  ghost predicate LosesOnly(before: map<string, Blob>, after: map<string, Blob>, ms: seq<Row>, fails: set<string>) {
    && (forall ref :: ref in after <==> ref in before && !TakenBy(ms, fails, ref))
    && (forall ref :: ref in after ==> after[ref] == before[ref])
  }

  lemma DropOneLosesOnly(blobs: map<string, Blob>, m: Row, fails: set<string>)
    ensures LosesOnly(blobs, DropBlob(blobs, m, fails), [m], fails)
  {
    assert forall ref :: TakenBy([m], fails, ref) <==> Takes([m][0], fails, ref);
  }

  /** The event that records a message's deletion: keyed to the message, in its chat, for its
      subject; it says what was asked, by whom, when and for whom, under the hash of saying so. */
  predicate Records(hs: Hashes, e: Row, m: Row, q: Request) {
    && IsEventOf(e, m) && e.fields.sourceApi == CONTENT && e.fields.recordType == DELETION
    && e.fields.subjectUserId == m.fields.subjectUserId && e.fields.occurredAt == q.now && e.fields.contentRef == None
    && e.fields.contentHash == hs.sha256(Utf8.Encode(Dumps(e.fields.metadata)))
    && TextAt(e.fields.metadata, "scope") == Some(q.scope) && TextAt(e.fields.metadata, "reason") == Some(q.reason)
    && TextAt(e.fields.metadata, "requested_by") == Some(q.requestedBy)
    && TextAt(e.fields.metadata, "deleted_at") == Some(q.now)
    && TextAt(e.fields.metadata, "dsr_subject") == q.dsrSubject
  }

  lemma EventRecords(hs: Hashes, rows: seq<Row>, tenant: string, m: Row, q: Request)
    requires q.scope != "tenant"
    ensures Records(hs, NewRow(hs.link, ReadTip(rows, tenant), tenant, MessageEvent(hs, m, q), None), m, q)
  {
    MessageEventMetadata(m.fields.externalId, ChatOf(m), q);
  }

  /** The event that records a shred. */
  predicate RecordsShred(hs: Hashes, e: Row, q: Request, dekDestroyed: bool) {
    && IsTenantEvent(e) && e.fields.sourceApi == CONTENT && e.fields.recordType == DELETION
    && e.fields.subjectUserId == None && e.fields.occurredAt == q.now && e.fields.contentRef == None
    && e.fields.contentHash == hs.sha256(Utf8.Encode(Dumps(e.fields.metadata)))
    && TextAt(e.fields.metadata, "reason") == Some(q.reason)
    && TextAt(e.fields.metadata, "requested_by") == Some(q.requestedBy)
    && TextAt(e.fields.metadata, "deleted_at") == Some(q.now)
    && Lookup(e.fields.metadata.members, "dek_destroyed") == Some(Bool(dekDestroyed))
  }

  lemma TenantEventRecords(hs: Hashes, rows: seq<Row>, tenant: string, q: Request, dekDestroyed: bool)
    ensures RecordsShred(hs, NewRow(hs.link, ReadTip(rows, tenant), tenant, TenantEvent(hs, q, dekDestroyed), None), q,
                         dekDestroyed)
  {
    TenantEventMetadata(q, dekDestroyed);
  }

  /** One message: its blob goes, unless the store raises, and nothing else; its event is in the
      table afterwards unless its id was taken. */
  lemma DeleteOneOutcome(hs: Hashes, tenant: string, a: Archive, m: Row, q: Request, fails: set<string>)
    requires ArchiveInv(hs, tenant, a) && q.scope != "tenant"
    requires m in a.rows && IsContent(m, tenant, MESSAGE)
    ensures var (b, added) := DeleteOne(hs, tenant, a, m, q, fails);
            && ArchiveInv(hs, tenant, b)
            && OnlyDeletes(a, b)
            && LosesOnly(a.blobs, b.blobs, [m], fails)
            && |b.rows| == |a.rows| + (if added then 1 else 0)
            && DedupTaken(b.rows, tenant, MessageEvent(hs, m, q))
            && (added ==> Records(hs, b.rows[|a.rows|], m, q))
  {
    var f := MessageEvent(hs, m, q);
    AppendEventOutcome(hs, a.rows, tenant, f);
    EventRecords(hs, a.rows, tenant, m, q);
    var row := NewRow(hs.link, ReadTip(a.rows, tenant), tenant, f, None);
    JustifiedStays(a.rows, tenant, row);
    DropOneLosesOnly(a.blobs, m, fails);
  }

  lemma OnlyDeletesComposes(a: Archive, b: Archive, c: Archive)
    requires OnlyDeletes(a, b) && OnlyDeletes(b, c)
    ensures OnlyDeletes(a, c)
  {
  }

  lemma TakenStays(rows: seq<Row>, more: seq<Row>, tenant: string, f: Fields)
    requires rows <= more && DedupTaken(rows, tenant, f)
    ensures DedupTaken(more, tenant, f)
  {
    var i :| 0 <= i < |rows| && SameDedupKey(rows[i], tenant, f);
    assert more[i] == rows[i];
  }

  /** One pass of deletion: the old chain stays a prefix and every row is accounted for. */
  lemma {:induction false} DeleteAllOutcome(hs: Hashes, tenant: string, a: Archive, ms: seq<Row>, q: Request,
                                            fails: set<string>)
    requires ArchiveInv(hs, tenant, a) && q.scope != "tenant"
    requires MessagesOf(ms, tenant, a.rows)
    ensures var t := DeleteAll(hs, tenant, a, ms, q, fails);
            && ArchiveInv(hs, tenant, t.archive)
            && OnlyDeletes(a, t.archive)
            && t.deleted + t.already == |ms|
            && |t.archive.rows| == |a.rows| + t.deleted
  {
    if ms != [] {
      var m, init := ms[|ms| - 1], ms[..|ms| - 1];
      SelectionSplits(ms, tenant, a.rows);
      DeleteAllOutcome(hs, tenant, a, init, q, fails);
      var t := DeleteAll(hs, tenant, a, init, q, fails);
      StillThere(m, a.rows, t.archive.rows);
      DeleteOneOutcome(hs, tenant, t.archive, m, q, fails);
      OnlyDeletesComposes(a, t.archive, DeleteOne(hs, tenant, t.archive, m, q, fails).0);
    }
  }

  predicate RecordsOneOf(hs: Hashes, e: Row, ms: seq<Row>, q: Request) {
    exists i :: 0 <= i < |ms| && Records(hs, e, ms[i], q)
  }

  /** All rows from `n` on record the deletion of one of these messages. */
  ghost predicate EachRecords(hs: Hashes, rows: seq<Row>, n: nat, ms: seq<Row>, q: Request) {
    forall k :: n <= k < |rows| ==> RecordsOneOf(hs, rows[k], ms, q)
  }

  lemma EachRecordsMore(hs: Hashes, rows: seq<Row>, more: seq<Row>, n: nat, ms: seq<Row>, q: Request)
    requires ms != [] && EachRecords(hs, rows, n, ms[..|ms| - 1], q) && rows <= more
    requires forall k :: |rows| <= k < |more| ==> Records(hs, more[k], ms[|ms| - 1], q)
    ensures EachRecords(hs, more, n, ms, q)
  {
    var init := ms[..|ms| - 1];
    forall k | n <= k < |more| ensures RecordsOneOf(hs, more[k], ms, q) {
      if k < |rows| {
        assert RecordsOneOf(hs, rows[k], init, q);
        var i :| 0 <= i < |init| && Records(hs, rows[k], init[i], q);
        assert Records(hs, more[k], ms[i], q);
      } else {
        assert Records(hs, more[k], ms[|ms| - 1], q);
      }
    }
  }

  lemma DeleteNextRows(hs: Hashes, tenant: string, t: Tally, m: Row, q: Request, fails: set<string>)
    requires ArchiveInv(hs, tenant, t.archive) && q.scope != "tenant"
    requires m in t.archive.rows && IsContent(m, tenant, MESSAGE)
    ensures var rows := DeleteNext(hs, tenant, t, m, q, fails).archive.rows;
            && t.archive.rows <= rows
            && forall k :: |t.archive.rows| <= k < |rows| ==> Records(hs, rows[k], m, q)
  {
    DeleteOneOutcome(hs, tenant, t.archive, m, q, fails);
  }

  /** Every row a pass appends records the deletion of a selected message, as asked. */
  lemma {:induction false} DeleteAllRecords(hs: Hashes, tenant: string, a: Archive, ms: seq<Row>, q: Request,
                                            fails: set<string>)
    requires ArchiveInv(hs, tenant, a) && q.scope != "tenant"
    requires MessagesOf(ms, tenant, a.rows)
    ensures EachRecords(hs, DeleteAll(hs, tenant, a, ms, q, fails).archive.rows, |a.rows|, ms, q)
  {
    if ms != [] {
      var m, init := ms[|ms| - 1], ms[..|ms| - 1];
      SelectionSplits(ms, tenant, a.rows);
      DeleteAllRecords(hs, tenant, a, init, q, fails);
      DeleteAllOutcome(hs, tenant, a, init, q, fails);
      var t := DeleteAll(hs, tenant, a, init, q, fails);
      StillThere(m, a.rows, t.archive.rows);
      DeleteNextRows(hs, tenant, t, m, q, fails);
      EachRecordsMore(hs, t.archive.rows, DeleteAll(hs, tenant, a, ms, q, fails).archive.rows, |a.rows|, ms, q);
    }
  }

  lemma {:induction false} DeleteAllTakesKeys(hs: Hashes, tenant: string, a: Archive, ms: seq<Row>, q: Request,
                                              fails: set<string>)
    requires ArchiveInv(hs, tenant, a) && q.scope != "tenant"
    requires MessagesOf(ms, tenant, a.rows)
    ensures forall i :: 0 <= i < |ms| ==>
              DedupTaken(DeleteAll(hs, tenant, a, ms, q, fails).archive.rows, tenant, MessageEvent(hs, ms[i], q))
  {
    if ms != [] {
      var last, init := ms[|ms| - 1], ms[..|ms| - 1];
      SelectionSplits(ms, tenant, a.rows);
      DeleteAllTakesKeys(hs, tenant, a, init, q, fails);
      DeleteAllOutcome(hs, tenant, a, init, q, fails);
      var b := DeleteAll(hs, tenant, a, init, q, fails).archive;
      StillThere(last, a.rows, b.rows);
      DeleteOneOutcome(hs, tenant, b, last, q, fails);
      var after := DeleteOne(hs, tenant, b, last, q, fails).0.rows;
      forall i | 0 <= i < |ms| - 1 ensures DedupTaken(after, tenant, MessageEvent(hs, ms[i], q)) {
        assert init[i] == ms[i];
        TakenStays(b.rows, after, tenant, MessageEvent(hs, ms[i], q));
      }
    }
  }

  /** When every message's event exists, deleting again appends nothing. */
  lemma {:induction false} NothingLeftToDelete(hs: Hashes, tenant: string, a: Archive, ms: seq<Row>, q: Request,
                                               fails: set<string>)
    requires TableInv(hs.link, a.rows)
    requires forall i :: 0 <= i < |ms| ==> DedupTaken(a.rows, tenant, MessageEvent(hs, ms[i], q))
    ensures var t := DeleteAll(hs, tenant, a, ms, q, fails);
            t.archive.rows == a.rows && t.deleted == 0 && t.already == |ms|
  {
    if ms != [] {
      NothingLeftToDelete(hs, tenant, a, ms[..|ms| - 1], q, fails);
      AppendEventOutcome(hs, a.rows, tenant, MessageEvent(hs, ms[|ms| - 1], q));
    }
  }

  /** A repeated delete of the same rows appends nothing, whoever asks and why. */
  lemma RepeatedDeleteIsIdempotent(hs: Hashes, tenant: string, a: Archive, ms: seq<Row>, q: Request, q': Request,
                                   fails: set<string>, fails': set<string>)
    requires ArchiveInv(hs, tenant, a) && q.scope != "tenant"
    requires MessagesOf(ms, tenant, a.rows)
    ensures var t := DeleteAll(hs, tenant, a, ms, q, fails);
            var u := DeleteAll(hs, tenant, t.archive, ms, q', fails');
            u.archive.rows == t.archive.rows && u.deleted == 0 && u.already == |ms|
  {
    var t := DeleteAll(hs, tenant, a, ms, q, fails);
    DeleteAllOutcome(hs, tenant, a, ms, q, fails);
    DeleteAllTakesKeys(hs, tenant, a, ms, q, fails);
    forall k | 0 <= k < |ms| ensures DedupTaken(t.archive.rows, tenant, MessageEvent(hs, ms[k], q')) {
      var i :| 0 <= i < |t.archive.rows| && SameDedupKey(t.archive.rows[i], tenant, MessageEvent(hs, ms[k], q));
      assert SameDedupKey(t.archive.rows[i], tenant, MessageEvent(hs, ms[k], q'));
    }
    NothingLeftToDelete(hs, tenant, t.archive, ms, q', fails');
  }

  function DropAll(blobs: map<string, Blob>, ms: seq<Row>, fails: set<string>): map<string, Blob> {
    if ms == [] then blobs else DropBlob(DropAll(blobs, ms[..|ms| - 1], fails), ms[|ms| - 1], fails)
  }

  lemma TakenByMore(ms: seq<Row>, fails: set<string>, ref: string)
    requires ms != []
    ensures TakenBy(ms, fails, ref) <==> TakenBy(ms[..|ms| - 1], fails, ref) || Takes(ms[|ms| - 1], fails, ref)
  {
    var init := ms[..|ms| - 1];
    if TakenBy(init, fails, ref) {
      var i :| 0 <= i < |init| && Takes(init[i], fails, ref);
      assert Takes(ms[i], fails, ref);
    }
    if TakenBy(ms, fails, ref) {
      var i :| 0 <= i < |ms| && Takes(ms[i], fails, ref);
      assert i < |init| ==> init[i] == ms[i];
    }
  }

  lemma {:induction false} DropAllLosesOnly(blobs: map<string, Blob>, ms: seq<Row>, fails: set<string>)
    ensures LosesOnly(blobs, DropAll(blobs, ms, fails), ms, fails)
  {
    if ms != [] {
      DropAllLosesOnly(blobs, ms[..|ms| - 1], fails);
      forall ref ensures TakenBy(ms, fails, ref)
                    <==> TakenBy(ms[..|ms| - 1], fails, ref) || Takes(ms[|ms| - 1], fails, ref)
      {
        TakenByMore(ms, fails, ref);
      }
    }
  }

  lemma DeleteNextBlobs(hs: Hashes, tenant: string, t: Tally, m: Row, q: Request, fails: set<string>)
    ensures DeleteNext(hs, tenant, t, m, q, fails).archive.blobs == DropBlob(t.archive.blobs, m, fails)
  {
  }

  lemma {:induction false} DeleteAllBlobs(hs: Hashes, tenant: string, a: Archive, ms: seq<Row>, q: Request,
                                          fails: set<string>)
    ensures DeleteAll(hs, tenant, a, ms, q, fails).archive.blobs == DropAll(a.blobs, ms, fails)
  {
    if ms != [] {
      var init := ms[..|ms| - 1];
      DeleteAllBlobs(hs, tenant, a, init, q, fails);
      DeleteNextBlobs(hs, tenant, DeleteAll(hs, tenant, a, init, q, fails), ms[|ms| - 1], q, fails);
    }
  }

  /** A pass takes exactly the blobs of the selected messages whose removal did not raise,
      whatever happened to their events, and leaves all others as they were. */
  lemma DeletedBlobsAreGone(hs: Hashes, tenant: string, a: Archive, ms: seq<Row>, q: Request, fails: set<string>)
    ensures LosesOnly(a.blobs, DeleteAll(hs, tenant, a, ms, q, fails).archive.blobs, ms, fails)
  {
    DeleteAllBlobs(hs, tenant, a, ms, q, fails);
    DropAllLosesOnly(a.blobs, ms, fails);
  }
}
