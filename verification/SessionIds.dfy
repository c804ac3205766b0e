/**
 Opaque session ids: the session's natural key, sealed under a key derived from the
 tenant's, and the legacy ids that are only encoded.
 */
module SessionIds {
  import opened Wrappers
  import opened Fields
  import Base64Url
  import Seal
  import Utf8

  type Bytes = seq<Base64Url.byte>

  const SEP := '|'
  const V2_PREFIX := "v2:"

  /** The primitives, over keys named by a number: a keyed nonce, AES-GCM and the derivation
      of the wrap key from the tenant's key. */
  datatype Crypto = Crypto(
    nonce: (nat, Bytes) -> Bytes,
    encrypt: (nat, Bytes, Bytes) -> Bytes,
    decrypt: (nat, Bytes, Bytes) -> Option<Bytes>,
    derive: nat -> nat)

  /** Ideal ones: a 12-byte nonce, and only the right key and nonce open a ciphertext. */
  ghost predicate Ideal(c: Crypto) {
    && (forall k, p :: |c.nonce(k, p)| == 12)
    && (forall k, n, p :: c.decrypt(k, n, c.encrypt(k, n, p)) == Some(p))
    && (forall k, l, n, m, p :: k != l ==> c.decrypt(l, m, c.encrypt(k, n, p)) == None)
    && (forall k, l :: c.derive(k) == c.derive(l) ==> k == l)
  }

  /** A calendar date as its ISO text, with the parser that reads it. */
  datatype Dates = Dates(fromIso: string -> Option<string>)

  ghost predicate ReadsIso(ds: Dates, date: string) {
    SEP !in date && ds.fromIso(date) == Some(date)
  }

  datatype Session = Session(date: string, actorType: string, actorKey: string)

  datatype Error = InvalidSessionId

  /** `s.replace("|", "_")` */
  function Sanitize(s: string): (r: string)
    ensures |r| == |s| && SEP !in r
    ensures forall i :: 0 <= i < |s| ==> r[i] == if s[i] == SEP then '_' else s[i]
  {
    if s == "" then "" else [if s[0] == SEP then '_' else s[0]] + Sanitize(s[1..])
  }

  function Sanitized(x: Session): Session {
    Session(x.date, Sanitize(x.actorType), Sanitize(x.actorKey))
  }

  function Raw(x: Session): string {
    x.date + [SEP] + x.actorType + [SEP] + x.actorKey
  }

  function Encode(c: Crypto, key: nat, x: Session): string {
    var raw := Utf8.Encode(Raw(Sanitized(x)));
    var nonce := c.nonce(key, raw);
    V2_PREFIX + Base64Url.Encode(nonce + c.encrypt(key, nonce, raw))
  }

  function EncodeLegacy(x: Session): string {
    Base64Url.Encode(Utf8.Encode(Raw(x)))
  }

  /** `s.split(d)` */
  function SplitAll(s: string, d: char): (parts: seq<string>)
    ensures |parts| >= 1
  {
    var i := Index(s, d);
    if i == |s| then [s] else [s[..i]] + SplitAll(s[i + 1..], d)
  }

  function Parse(ds: Dates, raw: string): Result<Session, Error> {
    var parts := SplitAll(raw, SEP);
    if |parts| != 3 then Failure(InvalidSessionId)
    else
      match ds.fromIso(parts[0])
      case None => Failure(InvalidSessionId)
      case Some(date) => Success(Session(date, parts[1], parts[2]))
  }

  /** `blob[:12]`, which may fall short. */
  function Head(blob: Bytes): Bytes {
    if |blob| <= 12 then blob else blob[..12]
  }

  function Tail(blob: Bytes): Bytes {
    if |blob| <= 12 then [] else blob[12..]
  }

  function DecodeV2(c: Crypto, key: nat, token: string): Option<string> {
    match Base64Url.Decode(token)
    case None => None
    case Some(blob) =>
      match c.decrypt(key, Head(blob), Tail(blob))
      case None => None
      case Some(raw) => Utf8.Decode(raw)
  }

  function DecodeV1(id: string): Option<string> {
    match Base64Url.Decode(id)
    case None => None
    case Some(raw) => Utf8.Decode(raw)
  }

  function Decode(ds: Dates, c: Crypto, key: nat, id: string): Result<Session, Error> {
    match if V2_PREFIX <= id then DecodeV2(c, key, id[|V2_PREFIX|..]) else DecodeV1(id)
    case None => Failure(InvalidSessionId)
    case Some(raw) => Parse(ds, raw)
  }

  // ---- Splitting ----

  lemma {:induction false} NoneToSplit(s: string, d: char)
    ensures d !in s <==> |SplitAll(s, d)| == 1
    ensures d !in s ==> SplitAll(s, d) == [s]
  {
    var i := Index(s, d);
    if i < |s| {
      assert s[i] == d;
    }
  }

  lemma {:induction false} SplitJoined(a: string, b: string, d: char)
    ensures SplitAll(a + [d] + b, d) == SplitAll(a, d) + SplitAll(b, d)
    decreases |a|
  {
    var s := a + [d] + b;
    var i := Index(a, d);
    if i == |a| {
      assert d !in a;
      CutPart(a, d, b);
    } else {
      var front, back := a[..i], a[i + 1..];
      assert a == front + [d] + back;
      assert s == front + [d] + (back + [d] + b);
      assert d !in front;
      CutPart(front, d, back + [d] + b);
      SplitJoined(back, b, d);
      assert SplitAll(s, d) == [front] + SplitAll(back + [d] + b, d);
      assert SplitAll(a, d) == [front] + SplitAll(back, d);
    }
  }

  /** The natural key is read back exactly when neither actor part holds the separator. */
  lemma ParseRaw(ds: Dates, x: Session)
    requires ReadsIso(ds, x.date)
    ensures Parse(ds, Raw(x)) == Success(x) <==> SEP !in x.actorType && SEP !in x.actorKey
    ensures Parse(ds, Raw(x)).Failure? <==> SEP in x.actorType || SEP in x.actorKey
  {
    SplitJoined(x.date + [SEP] + x.actorType, x.actorKey, SEP);
    SplitJoined(x.date, x.actorType, SEP);
    NoneToSplit(x.date, SEP);
    NoneToSplit(x.actorType, SEP);
    NoneToSplit(x.actorKey, SEP);
    assert SplitAll(Raw(x), SEP) == SplitAll(x.date, SEP) + SplitAll(x.actorType, SEP) + SplitAll(x.actorKey, SEP);
  }

  // ---- The laws of v2 ids ----

  lemma OpensToken(c: Crypto, key: nat, other: nat, x: Session)
    requires Ideal(c)
    ensures var token := Encode(c, key, x)[|V2_PREFIX|..];
            DecodeV2(c, other, token) == if other == key then Some(Raw(Sanitized(x))) else None
  {
    var raw := Utf8.Encode(Raw(Sanitized(x)));
    var nonce := c.nonce(key, raw);
    var sealed := c.encrypt(key, nonce, raw);
    var blob := nonce + sealed;
    assert Encode(c, key, x)[|V2_PREFIX|..] == Base64Url.Encode(blob);
    Base64Url.RoundTrip(blob);
    assert blob[..12] == nonce && blob[12..] == sealed;
    assert Head(blob) == nonce && Tail(blob) == sealed;
    Utf8.RoundTrip(Raw(Sanitized(x)));
  }

  /** Decoding an id gives its session, each separator in the actor replaced. */
  lemma SessionIdRoundTrip(ds: Dates, c: Crypto, key: nat, x: Session)
    requires Ideal(c) && ReadsIso(ds, x.date)
    ensures Decode(ds, c, key, Encode(c, key, x))
         == Success(Session(x.date, Sanitize(x.actorType), Sanitize(x.actorKey)))
  {
    OpensToken(c, key, key, x);
    ParseRaw(ds, Sanitized(x));
  }

  /** One id per sanitised session. */
  lemma SessionIdIdentifies(ds: Dates, c: Crypto, key: nat, x: Session, y: Session)
    requires Ideal(c) && ReadsIso(ds, x.date) && ReadsIso(ds, y.date)
    ensures Encode(c, key, x) == Encode(c, key, y) <==>
            x.date == y.date && Sanitize(x.actorType) == Sanitize(y.actorType)
            && Sanitize(x.actorKey) == Sanitize(y.actorKey)
  {
    SessionIdRoundTrip(ds, c, key, x);
    SessionIdRoundTrip(ds, c, key, y);
  }

  /** An id made under another key is refused. */
  lemma ForeignIdIsRejected(ds: Dates, c: Crypto, key: nat, other: nat, x: Session)
    requires Ideal(c) && key != other
    ensures Decode(ds, c, other, Encode(c, key, x)) == Failure(InvalidSessionId)
  {
    OpensToken(c, key, other, x);
  }

  /** A legacy id is never taken for a v2 id: base64url has no colon. */
  lemma LegacyIsNotV2(x: Session)
    ensures !(V2_PREFIX <= EncodeLegacy(x))
  {
    var raw := Utf8.Encode(Raw(x));
    Base64Url.EncodeIsUnpadded(raw);
    Base64Url.UnpaddedShape(raw);
    if |EncodeLegacy(x)| >= 3 {
      assert Base64Url.InAlphabet(EncodeLegacy(x)[2]);
      assert V2_PREFIX[2] == ':';
    }
  }

  /** Legacy ids still decode, under any key, unless a separator in the actor broke them. */
  lemma LegacyDecodes(ds: Dates, c: Crypto, key: nat, x: Session)
    requires ReadsIso(ds, x.date)
    ensures Decode(ds, c, key, EncodeLegacy(x)) == Success(x) <==> SEP !in x.actorType && SEP !in x.actorKey
    ensures Decode(ds, c, key, EncodeLegacy(x)).Failure? <==> SEP in x.actorType || SEP in x.actorKey
  {
    LegacyIsNotV2(x);
    Base64Url.RoundTrip(Utf8.Encode(Raw(x)));
    Utf8.RoundTrip(Raw(x));
    ParseRaw(ds, x);
  }

  // ---- The wrap key ----

  /** `_session_wrap_key`: a tenant without a key gets one on demand. */
  method SessionWrapKey(c: Crypto, vault: Seal.SecretVault, tenant: string) returns (r: Result<nat, Seal.Error>)
    modifies vault
    ensures var before := old(vault.State());
            var after := Seal.Step(before, Seal.ProvisionKey(tenant));
            && vault.State() == (if Seal.GetDek(before, tenant) == Failure(Seal.NoDek) then after else before)
            && (match Seal.GetDek(vault.State(), tenant)
                case Success(dek) => r == Success(c.derive(dek))
                case Failure(e) => r == Failure(e))
  {
    var dek := Seal.GetDek(vault.State(), tenant);
    if dek == Failure(Seal.NoDek) {
      var done := vault.ProvisionTenantDek(tenant);
      dek := Seal.GetDek(vault.State(), tenant);
    }
    match dek {
      case Failure(e) => return Failure(e);
      case Success(key) => return Success(c.derive(key));
    }
  }

  /** A shred also ends the tenant's session links: no later key of any tenant decodes them. */
  lemma ShredEndsSessionIds(ds: Dates, c: Crypto, before: seq<Seal.Action>, tenant: string, after: seq<Seal.Action>,
                            t: string, x: Session)
    requires Ideal(c) && tenant in Seal.Run(before).deks
    requires t in Seal.RunFrom(Seal.Destroy(Seal.Run(before), tenant), after).deks
    ensures var old_ := Seal.Run(before).deks[tenant].wrapped.key;
            var new_ := Seal.RunFrom(Seal.Destroy(Seal.Run(before), tenant), after).deks[t].wrapped.key;
            Decode(ds, c, c.derive(new_), Encode(c, c.derive(old_), x)) == Failure(InvalidSessionId)
  {
    var k := Seal.Run(before).deks[tenant].wrapped.key;
    var l := Seal.RunFrom(Seal.Destroy(Seal.Run(before), tenant), after).deks[t].wrapped.key;
    Seal.ShredIsTerminal(before, tenant, after, Seal.Cipher(k, 0, "", []), t, 0, "");
    ForeignIdIsRejected(ds, c, c.derive(k), c.derive(l), x);
  }
}
