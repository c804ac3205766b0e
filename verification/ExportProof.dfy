/**
 The chain proof of an export and the digest that names it: the SHA-256 of the canonical
 JSON of the verification and the proof records.
 */
module ExportProof {
  import opened Wrappers
  import opened Json
  import opened CanonicalRecord
  import opened Chain
  import opened Deletion
  import Utf8

  datatype ProofRow = ProofRow(externalId: string, chatId: string, seqNo: nat, selfHash: string, prevHash: string,
                               contentHash: string, occurredAt: string, purged: bool)

  function RowMembers(p: ProofRow): Members {
    Member("external_id", Str(p.externalId),
    Member("chat_id", Str(p.chatId),
    Member("chain_seq", Int(p.seqNo),
    Member("chain_self_hash", Str(p.selfHash),
    Member("chain_prev_hash", Str(p.prevHash),
    Member("content_hash", Str(p.contentHash),
    Member("occurred_at", Str(p.occurredAt),
    Member("purged", Bool(p.purged), NoMembers))))))))
  }

  function RowsJson(proof: seq<ProofRow>): Elems {
    if proof == [] then NoElems else Elem(Obj(RowMembers(proof[0])), RowsJson(proof[1..]))
  }

  /** What the export says of the chain: the verification, and why it failed if it did. */
  datatype Report = Report(result: VerifyResult, reason: Option<string>)

  function OptionalInt(n: Option<nat>): Json {
    match n case None => Null case Some(i) => Int(i)
  }

  function ReportMembers(r: Report): Members {
    Member("valid", Bool(r.result.valid),
    Member("record_count", Int(r.result.recordCount),
    Member("failure_reason", OptionalStr(r.reason),
    Member("failed_at_index", OptionalInt(r.result.failedAt), NoMembers))))
  }

  function DigestDict(r: Report, proof: seq<ProofRow>): Json {
    Obj(Member("verification", Obj(ReportMembers(r)), Member("records", Arr(RowsJson(proof)), NoMembers)))
  }

  function DigestText(r: Report, proof: seq<ProofRow>): seq<byte> {
    Utf8.Encode(Dumps(DigestDict(r, proof)))
  }

  function Digest(hs: Hashes, r: Report, proof: seq<ProofRow>): string {
    HexText(hs.sha256(DigestText(r, proof)))
  }

  /** Two different texts with one SHA-256. */
  predicate Collide(hs: Hashes, a: seq<byte>, b: seq<byte>) {
    a != b && hs.sha256(a) == hs.sha256(b)
  }

  // ---- What the digest is of ----

  lemma SecondPlace(ms: Members, key: string)
    requires ms.Member? && ms.rest.Member? && ms.key != key && ms.rest.key != key
    ensures Lookup(ms, key) == Lookup(ms.rest.rest, key)
  {
  }

  /** The digest is of a dict that names the verification and the records, each under its own keys. */
  lemma DigestDictHolds(r: Report, proof: seq<ProofRow>)
    ensures var d := DigestDict(r, proof);
            && Lookup(d.members, "verification") == Some(Obj(ReportMembers(r)))
            && Lookup(d.members, "records") == Some(Arr(RowsJson(proof)))
    ensures var ms := ReportMembers(r);
            && Lookup(ms, "valid") == Some(Bool(r.result.valid))
            && Lookup(ms, "record_count") == Some(Int(r.result.recordCount))
            && Lookup(ms, "failure_reason") == Some(OptionalStr(r.reason))
            && Lookup(ms, "failed_at_index") == Some(OptionalInt(r.result.failedAt))
  {
    SecondPlace(ReportMembers(r), "failure_reason");
    SecondPlace(ReportMembers(r), "failed_at_index");
  }

  lemma RowHolds(p: ProofRow)
    ensures var ms := RowMembers(p);
            && Lookup(ms, "external_id") == Some(Str(p.externalId)) && Lookup(ms, "chat_id") == Some(Str(p.chatId))
            && Lookup(ms, "chain_seq") == Some(Int(p.seqNo)) && Lookup(ms, "chain_self_hash") == Some(Str(p.selfHash))
            && Lookup(ms, "chain_prev_hash") == Some(Str(p.prevHash))
            && Lookup(ms, "content_hash") == Some(Str(p.contentHash))
            && Lookup(ms, "occurred_at") == Some(Str(p.occurredAt)) && Lookup(ms, "purged") == Some(Bool(p.purged))
  {
    var m1 := RowMembers(p);
    var m3 := m1.rest.rest;
    var m5 := m3.rest.rest;
    SecondPlace(m1, "chain_seq");
    SecondPlace(m1, "chain_self_hash");
    forall key | key in {"chain_prev_hash", "content_hash", "occurred_at", "purged"}
      ensures Lookup(m1, key) == Lookup(m5, key)
    {
      SecondPlace(m1, key);
      SecondPlace(m3, key);
    }
    assert Lookup(m5.rest, "content_hash") == Some(Str(p.contentHash));
    SecondPlace(m5, "occurred_at");
    SecondPlace(m5, "purged");
  }

  // ---- The dicts are dicts ----

  lemma RowIsWellFormed(p: ProofRow)
    ensures WellFormedMembers(RowMembers(p))
  {
    var m1 := RowMembers(p);
    var m2 := m1.rest;
    var m3 := m2.rest;
    var m4 := m3.rest;
    LastRowKeys(p);
    PrependMember(m4.key, m4.value, m4.rest);
    PrependMember(m3.key, m3.value, m4);
    PrependMember(m2.key, m2.value, m3);
    PrependMember(m1.key, m1.value, m2);
  }

  lemma LastRowKeys(p: ProofRow)
    ensures var ms := RowMembers(p).rest.rest.rest.rest;
            WellFormedMembers(ms)
            && MembersMean(ms).Keys == {"chain_prev_hash", "content_hash", "occurred_at", "purged"}
  {
    var m5 := RowMembers(p).rest.rest.rest.rest;
    var m6 := m5.rest;
    var m7 := m6.rest;
    var m8 := m7.rest;
    PrependMember(m8.key, m8.value, NoMembers);
    PrependMember(m7.key, m7.value, m8);
    PrependMember(m6.key, m6.value, m7);
    PrependMember(m5.key, m5.value, m6);
  }

  lemma {:induction false} RowsAreWellFormed(proof: seq<ProofRow>)
    ensures WellFormedElems(RowsJson(proof))
  {
    if proof != [] {
      RowIsWellFormed(proof[0]);
      RowsAreWellFormed(proof[1..]);
    }
  }

  lemma ReportIsWellFormed(r: Report)
    ensures WellFormedMembers(ReportMembers(r))
  {
    var m1 := ReportMembers(r);
    var m2 := m1.rest;
    var m3 := m2.rest;
    var m4 := m3.rest;
    PrependMember(m4.key, m4.value, NoMembers);
    PrependMember(m3.key, m3.value, m4);
    PrependMember(m2.key, m2.value, m3);
    PrependMember(m1.key, m1.value, m2);
  }

  lemma DigestDictIsWellFormed(r: Report, proof: seq<ProofRow>)
    ensures WellFormed(DigestDict(r, proof))
  {
    var m1 := DigestDict(r, proof).members;
    ReportIsWellFormed(r);
    RowsAreWellFormed(proof);
    PrependMember(m1.rest.key, m1.rest.value, NoMembers);
    PrependMember(m1.key, m1.value, m1.rest);
  }

  // ---- They mean what they say ----

  lemma RowMeans(p: ProofRow, q: ProofRow)
    ensures Means(Obj(RowMembers(p))) == Means(Obj(RowMembers(q))) <==> p == q
  {
    var m1, n1 := RowMembers(p), RowMembers(q);
    var m3, n3 := m1.rest.rest, n1.rest.rest;
    var m5, n5 := m3.rest.rest, n3.rest.rest;
    var m7, n7 := m5.rest.rest, n5.rest.rest;
    RowIsWellFormed(p);
    RowIsWellFormed(q);
    assert SameKeys(m7, n7);
    assert SameKeys(m5, n5);
    assert SameKeys(m3, n3);
    EqualDictsEqualValues(m1, n1);
    assert SameValues(m7.rest, n7.rest) <==> p.purged == q.purged;
    assert SameValues(m7, n7) <==> p.occurredAt == q.occurredAt && p.purged == q.purged;
    assert SameValues(m5, n5) <==> p.prevHash == q.prevHash && p.contentHash == q.contentHash && SameValues(m7, n7);
    assert SameValues(m3, n3) <==> p.seqNo == q.seqNo && p.selfHash == q.selfHash && SameValues(m5, n5);
  }

  lemma {:induction false} RowsMean(p: seq<ProofRow>, q: seq<ProofRow>)
    ensures ElemsMean(RowsJson(p)) == ElemsMean(RowsJson(q)) <==> p == q
  {
    if p != [] && q != [] {
      RowsMean(p[1..], q[1..]);
      RowMeans(p[0], q[0]);
      var x, y := ElemsMean(RowsJson(p)), ElemsMean(RowsJson(q));
      assert x[0] == Means(Obj(RowMembers(p[0]))) && x[1..] == ElemsMean(RowsJson(p[1..]));
      assert y[0] == Means(Obj(RowMembers(q[0]))) && y[1..] == ElemsMean(RowsJson(q[1..]));
      assert p == [p[0]] + p[1..] && q == [q[0]] + q[1..];
    }
  }

  lemma ReportMeans(r: Report, s: Report)
    ensures Means(Obj(ReportMembers(r))) == Means(Obj(ReportMembers(s))) <==> r == s
  {
    var m1, n1 := ReportMembers(r), ReportMembers(s);
    var m3, n3 := m1.rest.rest, n1.rest.rest;
    ReportIsWellFormed(r);
    ReportIsWellFormed(s);
    assert SameKeys(m3, n3);
    EqualDictsEqualValues(m1, n1);
    OptionalStrMeans(r.reason, s.reason);
    assert SameValues(m3.rest, n3.rest) <==> r.result.failedAt == s.result.failedAt;
    assert SameValues(m3, n3) <==> r.reason == s.reason && r.result.failedAt == s.result.failedAt;
  }

  lemma DigestDictMeans(r: Report, p: seq<ProofRow>, s: Report, q: seq<ProofRow>)
    ensures Means(DigestDict(r, p)) == Means(DigestDict(s, q)) <==> r == s && p == q
  {
    var m, n := DigestDict(r, p).members, DigestDict(s, q).members;
    DigestDictIsWellFormed(r, p);
    DigestDictIsWellFormed(s, q);
    ReportMeans(r, s);
    RowsMean(p, q);
    assert SameKeys(m.rest, n.rest);
    EqualDictsEqualValues(m, n);
    assert SameValues(m.rest, n.rest) <==> p == q;
  }

  /** The text that is hashed holds the whole report and every proof row, and nothing else. */
  lemma DigestTextIdentifies(r: Report, p: seq<ProofRow>, s: Report, q: seq<ProofRow>)
    ensures DigestText(r, p) == DigestText(s, q) <==> r == s && p == q
  {
    var a, b := DigestDict(r, p), DigestDict(s, q);
    DigestDictIsWellFormed(r, p);
    DigestDictIsWellFormed(s, q);
    DigestDictMeans(r, p, s, q);
    DumpsIsCanonical(a, b);
    Utf8.RoundTrip(Dumps(a));
    Utf8.RoundTrip(Dumps(b));
  }

  /** Two exports carry one digest exactly when they report the same verification and hold the same
      proof, row by row, or their two texts are a collision of the hash. */
  lemma DigestIdentifiesProof(hs: Hashes, r: Report, p: seq<ProofRow>, s: Report, q: seq<ProofRow>)
    ensures Digest(hs, r, p) == Digest(hs, s, q)
       <==> (r == s && p == q) || Collide(hs, DigestText(r, p), DigestText(s, q))
  {
    DigestTextIdentifies(r, p, s, q);
    if Digest(hs, r, p) == Digest(hs, s, q) {
      HexTextIsInjective(hs.sha256(DigestText(r, p)), hs.sha256(DigestText(s, q)));
    }
  }
}
