/**
 What the three readers make of deletion events: they agree, and deletions and shreds
 show up in them unless something occupies the event's id.
 */
module ContentViews {
  import opened Wrappers
  import opened CanonicalRecord
  import opened Chain
  import opened Deletion

  // ---- The readers agree ----

  lemma DedupRowsAreEqual(rows: seq<Row>, r: Row, s: Row)
    requires DedupUnique(rows) && r in rows && s in rows && SameDedupKey(r, s.tenant, s.fields)
    ensures r == s
  {
    var i :| 0 <= i < |rows| && rows[i] == r;
    var j :| 0 <= j < |rows| && rows[j] == s;
    assert SameDedupKey(rows[i], rows[j].tenant, rows[j].fields);
    assert SameDedupKey(rows[j], rows[i].tenant, rows[i].fields);
  }

  lemma PrefixCancels(a: string, b: string)
    requires "deletion:" + a == "deletion:" + b
    ensures a == b
  {
    assert ("deletion:" + a)[9..] == a && ("deletion:" + b)[9..] == b;
  }

  /** A row keyed to a message is that message's event, or the tenant's. */
  lemma KeyedRowIsItsEvent(hs: Hashes, tenant: string, a: Archive, m: Row, e: Row)
    requires ArchiveInv(hs, tenant, a)
    requires m in a.rows && IsContent(m, tenant, MESSAGE)
    requires e in a.rows && IsContent(e, tenant, DELETION)
    requires e.fields.externalId == "deletion:" + m.fields.externalId
    ensures IsTenantEvent(e) || IsEventOf(e, m)
  {
    assert EventIsJustified(a.rows, tenant, e);
    if !IsTenantEvent(e) {
      var m' :| m' in a.rows && IsContent(m', tenant, MESSAGE) && IsEventOf(e, m');
      PrefixCancels(m.fields.externalId, m'.fields.externalId);
      DedupRowsAreEqual(a.rows, m, m');
    }
  }

  lemma NamedRowIsItsEvent(hs: Hashes, tenant: string, a: Archive, m: Row, e: Row)
    requires ArchiveInv(hs, tenant, a)
    requires m in a.rows && IsContent(m, tenant, MESSAGE)
    requires e in a.rows && IsContent(e, tenant, DELETION)
    requires TextAt(e.fields.metadata, "deleted_external_id") == Some(m.fields.externalId)
    ensures IsEventOf(e, m)
  {
    assert EventIsJustified(a.rows, tenant, e);
    var m' :| m' in a.rows && IsContent(m', tenant, MESSAGE) && IsEventOf(e, m');
    DedupRowsAreEqual(a.rows, m, m');
  }

  /** For every message of a chat, the list's join, the detail's per-chat ids and the
      export's ids say the same. */
  lemma MessageViewsAgree(hs: Hashes, tenant: string, a: Archive, chat: string, m: Row)
    requires ArchiveInv(hs, tenant, a)
    requires m in a.rows && IsContent(m, tenant, MESSAGE) && ChatOf(m) == Some(chat)
    ensures PurgedInDetail(a.rows, tenant, chat, m) <==> PurgedInExport(a.rows, tenant, m)
    ensures TenantShred(a.rows, tenant) || HasDeletionRow(a.rows, tenant, m) <==> PurgedInExport(a.rows, tenant, m)
  {
    if !TenantShred(a.rows, tenant) {
      if HasDeletionRow(a.rows, tenant, m) {
        var e :| e in a.rows && IsContent(e, tenant, DELETION)
            && e.fields.externalId == "deletion:" + m.fields.externalId;
        KeyedRowIsItsEvent(hs, tenant, a, m, e);
      }
      if PurgedInExport(a.rows, tenant, m) {
        var e :| e in a.rows && IsContent(e, tenant, DELETION)
          && TextAt(e.fields.metadata, "deleted_external_id") == Some(m.fields.externalId);
        NamedRowIsItsEvent(hs, tenant, a, m, e);
      }
    }
  }

  /** The list and the detail view call the same chats purged. */
  lemma ChatViewsAgree(hs: Hashes, tenant: string, a: Archive, chat: string)
    requires ArchiveInv(hs, tenant, a)
    requires ChatMessages(a.rows, tenant, chat) != []
    ensures ChatPurgedInList(a.rows, tenant, chat) <==> ChatPurgedInDetail(a.rows, tenant, chat)
  {
    forall m | m in ChatMessages(a.rows, tenant, chat)
      ensures TenantShred(a.rows, tenant) || HasDeletionRow(a.rows, tenant, m)
          <==> PurgedInDetail(a.rows, tenant, chat, m)
    {
      MessageViewsAgree(hs, tenant, a, chat, m);
    }
  }

  // ---- What a deletion shows ----

  /** A captured record already sits on the external id the message's event needs. */
  predicate Blocked(rows: seq<Row>, tenant: string, m: Row) {
    exists r :: r in rows && r.tenant == tenant && r.fields.sourceApi == CONTENT && r.fields.recordType != DELETION
      && r.fields.externalId == "deletion:" + m.fields.externalId
  }

  /** After a delete, a selected message is purged unless its event's id was occupied.
      (Without ids in the "deletion:" namespace nothing is ever occupied.) */
  lemma DeletedMessagesArePurged(hs: Hashes, tenant: string, a: Archive, ms: seq<Row>, q: Request, fails: set<string>,
                                 k: nat)
    requires ArchiveInv(hs, tenant, a) && q.scope != "tenant"
    requires MessagesOf(ms, tenant, a.rows) && k < |ms|
    ensures var rows := DeleteAll(hs, tenant, a, ms, q, fails).archive.rows;
            PurgedInExport(rows, tenant, ms[k]) <==> TenantShred(rows, tenant) || !Blocked(a.rows, tenant, ms[k])
  {
    var m := ms[k];
    var b := DeleteAll(hs, tenant, a, ms, q, fails).archive;
    DeleteAllOutcome(hs, tenant, a, ms, q, fails);
    DeleteAllTakesKeys(hs, tenant, a, ms, q, fails);
    StillThere(m, a.rows, b.rows);
    var f := MessageEvent(hs, m, q);
    assert DedupTaken(b.rows, tenant, f);
    var i :| 0 <= i < |b.rows| && SameDedupKey(b.rows[i], tenant, f);
    var e := b.rows[i];
    if Blocked(a.rows, tenant, m) {
      var r :| r in a.rows && r.tenant == tenant && r.fields.sourceApi == CONTENT && r.fields.recordType != DELETION
        && r.fields.externalId == "deletion:" + m.fields.externalId;
      StillThere(r, a.rows, b.rows);
      if PurgedInExport(b.rows, tenant, m) && !TenantShred(b.rows, tenant) {
        var d :| d in b.rows && IsContent(d, tenant, DELETION)
          && TextAt(d.fields.metadata, "deleted_external_id") == Some(m.fields.externalId);
        NamedRowIsItsEvent(hs, tenant, b, m, d);
        DedupRowsAreEqual(b.rows, d, r);
      }
    } else {
      assert IsContent(e, tenant, DELETION);
      KeyedRowIsItsEvent(hs, tenant, b, m, e);
    }
  }

  /** Something other than a tenant event occupies "deletion:tenant". */
  predicate ShredBlocked(rows: seq<Row>, tenant: string) {
    exists r :: r in rows && r.tenant == tenant && r.fields.sourceApi == CONTENT
        && r.fields.externalId == "deletion:tenant"
      && !(r.fields.recordType == DELETION && IsTenantEvent(r))
  }

  lemma ShredKeepsInv(hs: Hashes, tenant: string, a: Archive, q: Request)
    requires ArchiveInv(hs, tenant, a)
    ensures ArchiveInv(hs, tenant, Shred(hs, tenant, a, q))
    ensures a.rows <= Shred(hs, tenant, a, q).rows
  {
    var f := TenantEvent(hs, q, tenant in a.vault.deks);
    AppendEventOutcome(hs, a.rows, tenant, f);
    TenantEventMetadata(q, tenant in a.vault.deks);
    var row := NewRow(hs.link, ReadTip(a.rows, tenant), tenant, f, None);
    assert IsTenantEvent(row);
    JustifiedStays(a.rows, tenant, row);
  }

  lemma BlockedShredIsHidden(hs: Hashes, tenant: string, a: Archive, q: Request)
    requires ArchiveInv(hs, tenant, a) && ShredBlocked(a.rows, tenant)
    ensures !TenantShred(Shred(hs, tenant, a, q).rows, tenant)
  {
    var f := TenantEvent(hs, q, tenant in a.vault.deks);
    var r :| r in a.rows && r.tenant == tenant && r.fields.sourceApi == CONTENT
        && r.fields.externalId == "deletion:tenant"
      && !(r.fields.recordType == DELETION && IsTenantEvent(r));
    var k :| 0 <= k < |a.rows| && a.rows[k] == r;
    assert SameDedupKey(a.rows[k], tenant, f);
    AppendEventOutcome(hs, a.rows, tenant, f);
    if TenantShred(a.rows, tenant) {
      var d :| d in a.rows && IsContent(d, tenant, DELETION) && TextAt(d.fields.metadata, "scope") == Some("tenant");
      assert EventIsJustified(a.rows, tenant, d);
      assert IsTenantEvent(d);
      DedupRowsAreEqual(a.rows, d, r);
    }
  }

  lemma FreeShredShows(hs: Hashes, tenant: string, a: Archive, q: Request)
    requires ArchiveInv(hs, tenant, a) && !ShredBlocked(a.rows, tenant)
    ensures TenantShred(Shred(hs, tenant, a, q).rows, tenant)
  {
    var f := TenantEvent(hs, q, tenant in a.vault.deks);
    AppendEventOutcome(hs, a.rows, tenant, f);
    if DedupTaken(a.rows, tenant, f) {
      var i :| 0 <= i < |a.rows| && SameDedupKey(a.rows[i], tenant, f);
      var e := a.rows[i];
      assert IsContent(e, tenant, DELETION) && IsTenantEvent(e);
    } else {
      TenantEventMetadata(q, tenant in a.vault.deks);
      var e := NewRow(hs.link, ReadTip(a.rows, tenant), tenant, f, None);
      assert e in a.rows + [e] && IsContent(e, tenant, DELETION);
    }
  }

  /** A shred shows in every view unless a row that is no tenant event (say, the deletion
      of a message whose id is "tenant") already took its external id. */
  lemma ShredShows(hs: Hashes, tenant: string, a: Archive, q: Request)
    requires ArchiveInv(hs, tenant, a)
    ensures TenantShred(Shred(hs, tenant, a, q).rows, tenant) <==> !ShredBlocked(a.rows, tenant)
  {
    if ShredBlocked(a.rows, tenant) {
      BlockedShredIsHidden(hs, tenant, a, q);
    } else {
      FreeShredShows(hs, tenant, a, q);
    }
  }

  /** A captured content id outside the "deletion:" namespace that is not "tenant". */
  predicate CleanId(f: Fields) {
    f.sourceApi == CONTENT && f.recordType != DELETION ==>
      !("deletion:" <= f.externalId) && f.externalId != "tenant"
  }

  ghost predicate CleanIds(rows: seq<Row>) {
    forall r :: r in rows ==> CleanId(r.fields)
  }

  /** With clean ids, what sits on "deletion:tenant" is the shred's own event. */
  lemma CleanTenantKey(hs: Hashes, tenant: string, a: Archive, r: Row)
    requires ArchiveInv(hs, tenant, a) && CleanIds(a.rows)
    requires r in a.rows && r.tenant == tenant && r.fields.sourceApi == CONTENT
    requires r.fields.externalId == "deletion:tenant"
    ensures r.fields.recordType == DELETION && IsTenantEvent(r)
  {
    assert "deletion:" <= "deletion:tenant";
    assert EventIsJustified(a.rows, tenant, r);
    forall m | m in a.rows && IsContent(m, tenant, MESSAGE) ensures !IsEventOf(r, m) {
      if IsEventOf(r, m) {
        PrefixCancels(m.fields.externalId, "tenant");
      }
    }
  }

  /** With clean ids no deletion and no shred is ever hidden. */
  lemma CleanIdsNeverBlock(hs: Hashes, tenant: string, a: Archive)
    requires ArchiveInv(hs, tenant, a) && CleanIds(a.rows)
    ensures !ShredBlocked(a.rows, tenant)
    ensures forall m :: m in a.rows ==> !Blocked(a.rows, tenant, m)
  {
    forall r | r in a.rows && r.tenant == tenant && r.fields.sourceApi == CONTENT
      && r.fields.externalId == "deletion:tenant"
      ensures r.fields.recordType == DELETION && IsTenantEvent(r)
    {
      CleanTenantKey(hs, tenant, a, r);
    }
  }
}
