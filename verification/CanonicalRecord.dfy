/** The bytes of a telemetry record that its chain hash binds. */
module CanonicalRecord {
  import opened Wrappers
  import opened Json
  import Base64Url
  import Utf8

  type byte = Base64Url.byte

  /** A Python dict with string keys. */
  type Dict = v: Json | v.Obj? && WellFormed(v) witness Obj(NoMembers)

  /** The immutable columns; `occurredAt` is the ISO text of the UTC instant. */
  datatype Fields = Fields(
    recordType: string,
    sourceApi: string,
    externalId: string,
    subjectUserId: Option<string>,
    occurredAt: string,
    contentRef: Option<string>,
    contentHash: seq<byte>,
    metadata: Dict)

  function HexText(b: seq<byte>): string {
    if b == [] then "" else [HexDigit(b[0] / 16), HexDigit(b[0] % 16)] + HexText(b[1..])
  }

  function OptionalStr(s: Option<string>): Json {
    match s
    case None => Null
    case Some(t) => Str(t)
  }

  /** `_canonical_dict` */
  function CanonicalDict(f: Fields): Json {
    Obj(Member("content_hash", Str(HexText(f.contentHash)),
        Member("content_ref", OptionalStr(f.contentRef),
        Member("external_id", Str(f.externalId),
        Member("metadata", f.metadata,
        Member("occurred_at", Str(f.occurredAt),
        Member("record_type", Str(f.recordType),
        Member("source_api", Str(f.sourceApi),
        Member("subject_user_id", OptionalStr(f.subjectUserId), NoMembers)))))))))
  }

  /** `_canonical_bytes` */
  function CanonicalBytes(f: Fields): seq<byte> {
    Utf8.Encode(Dumps(CanonicalDict(f)))
  }

  /** Equal in every hashed column, metadata up to the order of its keys. */
  predicate SameFields(f: Fields, g: Fields) {
    && f.recordType == g.recordType
    && f.sourceApi == g.sourceApi
    && f.externalId == g.externalId
    && f.subjectUserId == g.subjectUserId
    && f.occurredAt == g.occurredAt
    && f.contentRef == g.contentRef
    && f.contentHash == g.contentHash
    && Means(f.metadata) == Means(g.metadata)
  }

  lemma {:induction false} HexTextIsInjective(a: seq<byte>, b: seq<byte>)
    requires HexText(a) == HexText(b)
    ensures a == b
  {
    if a != [] {
      assert HexText(a)[0] == HexDigit(a[0] / 16);
      assert b != [];
      assert HexText(b)[0] == HexDigit(b[0] / 16);
      assert HexText(a)[1] == HexDigit(a[0] % 16) && HexText(b)[1] == HexDigit(b[0] % 16);
      assert a[0] == b[0];
      assert HexText(a)[2..] == HexText(a[1..]) && HexText(b)[2..] == HexText(b[1..]);
      HexTextIsInjective(a[1..], b[1..]);
      assert a == [a[0]] + a[1..] && b == [b[0]] + b[1..];
    } else {
      assert b != [] ==> HexText(b) != "";
    }
  }

  /** Two digits for each byte, the high one first. */
  lemma {:induction false} HexTextDigits(b: seq<byte>, i: nat)
    requires i < |b|
    ensures |HexText(b)| == 2 * |b|
    ensures HexText(b)[2 * i] == HexDigit(b[i] / 16) && HexText(b)[2 * i + 1] == HexDigit(b[i] % 16)
  {
    var head := [HexDigit(b[0] / 16), HexDigit(b[0] % 16)];
    assert HexText(b) == head + HexText(b[1..]);
    if i > 0 {
      HexTextDigits(b[1..], i - 1);
    } else if |b| > 1 {
      HexTextDigits(b[1..], 0);
    }
  }

  /** One more key at the front of a dict. */
  lemma PrependMember(k: string, v: Json, ms: Members)
    requires WellFormed(v) && WellFormedMembers(ms) && k !in MembersMean(ms)
    ensures WellFormedMembers(Member(k, v, ms))
    ensures MembersMean(Member(k, v, ms)).Keys == MembersMean(ms).Keys + {k}
  {
  }

  lemma LastFourKeys(f: Fields)
    ensures var ms := CanonicalDict(f).members.rest.rest.rest.rest;
            WellFormedMembers(ms)
            && MembersMean(ms).Keys == {"occurred_at", "record_type", "source_api", "subject_user_id"}
  {
    var m5 := CanonicalDict(f).members.rest.rest.rest.rest;
    var m6 := m5.rest;
    var m7 := m6.rest;
    var m8 := m7.rest;
    PrependMember(m8.key, m8.value, NoMembers);
    PrependMember(m7.key, m7.value, m8);
    PrependMember(m6.key, m6.value, m7);
    PrependMember(m5.key, m5.value, m6);
  }

  /** The eight keys are distinct, so the canonical dict is a dict. */
  lemma CanonicalDictIsWellFormed(f: Fields)
    ensures WellFormed(CanonicalDict(f))
  {
    var m1 := CanonicalDict(f).members;
    var m2 := m1.rest;
    var m3 := m2.rest;
    var m4 := m3.rest;
    LastFourKeys(f);
    PrependMember(m4.key, m4.value, m4.rest);
    PrependMember(m3.key, m3.value, m4);
    PrependMember(m2.key, m2.value, m3);
    PrependMember(m1.key, m1.value, m2);
  }

  /** The same keys in the same order. */
  predicate SameKeys(ms: Members, ns: Members) {
    match ms
    case NoMembers => ns.NoMembers?
    case Member(k, _, more) => ns.Member? && ns.key == k && SameKeys(more, ns.rest)
  }

  /** Position by position, the same meaning. */
  predicate SameValues(ms: Members, ns: Members)
    requires SameKeys(ms, ns)
  {
    match ms
    case NoMembers => true
    case Member(_, v, more) => Means(v) == Means(ns.value) && SameValues(more, ns.rest)
  }

  lemma EqualAfterInsert(m: map<string, Meaning>, n: map<string, Meaning>, k: string, v: Meaning, w: Meaning)
    requires k !in m && k !in n
    ensures m[k := v] == n[k := w] <==> v == w && m == n
  {
    if m[k := v] == n[k := w] {
      assert m[k := v][k] == n[k := w][k];
      assert m == m[k := v] - {k} && n == n[k := w] - {k};
    }
  }

  lemma {:induction false} EqualDictsEqualValues(ms: Members, ns: Members)
    requires SameKeys(ms, ns) && WellFormedMembers(ms) && WellFormedMembers(ns)
    ensures MembersMean(ms) == MembersMean(ns) <==> SameValues(ms, ns)
  {
    if ms.Member? {
      EqualDictsEqualValues(ms.rest, ns.rest);
      EqualAfterInsert(MembersMean(ms.rest), MembersMean(ns.rest), ms.key, Means(ms.value), Means(ns.value));
    }
  }

  lemma OptionalStrMeans(s: Option<string>, t: Option<string>)
    ensures Means(OptionalStr(s)) == Means(OptionalStr(t)) <==> s == t
  {
  }

  lemma DictsShareKeys(f: Fields, g: Fields)
    ensures SameKeys(CanonicalDict(f).members, CanonicalDict(g).members)
    ensures SameValues(CanonicalDict(f).members, CanonicalDict(g).members) <==> SameFields(f, g)
  {
    var m1, n1 := CanonicalDict(f).members, CanonicalDict(g).members;
    var m3, n3 := m1.rest.rest, n1.rest.rest;
    var m5, n5 := m3.rest.rest, n3.rest.rest;
    var m7, n7 := m5.rest.rest, n5.rest.rest;
    assert SameKeys(m7, n7);
    assert SameKeys(m5, n5);
    assert SameKeys(m3, n3);
    if HexText(f.contentHash) == HexText(g.contentHash) {
      HexTextIsInjective(f.contentHash, g.contentHash);
    }
    OptionalStrMeans(f.contentRef, g.contentRef);
    OptionalStrMeans(f.subjectUserId, g.subjectUserId);
    assert SameValues(m7.rest, n7.rest) <==> f.subjectUserId == g.subjectUserId;
    assert SameValues(m7, n7) <==> f.sourceApi == g.sourceApi && f.subjectUserId == g.subjectUserId;
    assert SameValues(m5, n5) <==>
      f.occurredAt == g.occurredAt && f.recordType == g.recordType && SameValues(m7, n7);
    assert SameValues(m3, n3) <==>
      f.externalId == g.externalId && Means(f.metadata) == Means(g.metadata) && SameValues(m5, n5);
  }

  lemma LastFourMean(f: Fields)
    ensures MembersMean(CanonicalDict(f).members.rest.rest.rest.rest)
         == map["subject_user_id" := Means(OptionalStr(f.subjectUserId)), "source_api" := MStr(f.sourceApi),
                "record_type" := MStr(f.recordType), "occurred_at" := MStr(f.occurredAt)]
  {
    var m5 := CanonicalDict(f).members.rest.rest.rest.rest;
    var m7 := m5.rest.rest;
    assert MembersMean(m7.rest) == map["subject_user_id" := Means(OptionalStr(f.subjectUserId))];
    assert MembersMean(m7) == MembersMean(m7.rest)["source_api" := MStr(f.sourceApi)];
    assert MembersMean(m5.rest) == MembersMean(m7)["record_type" := MStr(f.recordType)];
    assert MembersMean(m5) == MembersMean(m5.rest)["occurred_at" := MStr(f.occurredAt)];
  }

  /** Reading the hashed bytes back gives the record's eight immutable columns, by name. */
  lemma CanonicalBytesHold(f: Fields)
    ensures var text := Utf8.Decode(CanonicalBytes(f));
            && text.Some? && Loads(text.value).Some?
            && Means(Loads(text.value).value)
               == MObj(map["subject_user_id" := Means(OptionalStr(f.subjectUserId)),
                           "source_api" := MStr(f.sourceApi),
                           "record_type" := MStr(f.recordType),
                           "occurred_at" := MStr(f.occurredAt),
                           "metadata" := Means(f.metadata),
                           "external_id" := MStr(f.externalId),
                           "content_ref" := Means(OptionalStr(f.contentRef)),
                           "content_hash" := MStr(HexText(f.contentHash))])
  {
    CanonicalDictIsWellFormed(f);
    LoadsRecoversDict(CanonicalDict(f));
    Utf8.RoundTrip(Dumps(CanonicalDict(f)));
    LastFourMean(f);
    var m1 := CanonicalDict(f).members;
    var m3 := m1.rest.rest;
    assert MembersMean(m3)
        == MembersMean(m3.rest.rest)["metadata" := Means(f.metadata)]["external_id" := MStr(f.externalId)];
    assert MembersMean(m1.rest) == MembersMean(m3)["content_ref" := Means(OptionalStr(f.contentRef))];
    assert MembersMean(m1) == MembersMean(m1.rest)["content_hash" := MStr(HexText(f.contentHash))];
  }

  /** Equal bytes mean equal columns, and reordering metadata keys never changes the bytes. */
  lemma CanonicalBytesIdentifyFields(f: Fields, g: Fields)
    ensures CanonicalBytes(f) == CanonicalBytes(g) <==> SameFields(f, g)
  {
    var a, b := CanonicalDict(f), CanonicalDict(g);
    CanonicalDictIsWellFormed(f);
    CanonicalDictIsWellFormed(g);
    DumpsIsCanonical(a, b);
    DictsShareKeys(f, g);
    EqualDictsEqualValues(a.members, b.members);
    Utf8.RoundTrip(Dumps(a));
    Utf8.RoundTrip(Dumps(b));
  }
}
