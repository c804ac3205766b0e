/**
 The bearer-token check of the MCP endpoint: an insertion-ordered, bounded cache in
 front of the token table, and the identity packed into the scopes.
 */
module TokenVerifier {
  import opened Wrappers
  import OAuth
  import OAuthRuns

  const CACHE_MAX_ENTRIES := 1024

  datatype AccessToken = AccessToken(token: string, clientId: string, scopes: seq<string>, expiresAt: int,
                                     resource: string)

  /** `mcp_access_tokens`; `revoked` holds the hashes whose `revoked_at` is set. */
  datatype Table = Table(rows: map<string, OAuth.TokenRow>, revoked: set<string>)

  datatype CacheEntry = CacheEntry(hash: string, token: AccessToken, expiresAt: int)

  type Cache = seq<CacheEntry>

  // ---- The uncached answer ----

  function RStrip(s: string): (r: string)
    ensures r <= s && (r == "" || r[|r| - 1] != '/') && forall i :: |r| <= i < |s| ==> s[i] == '/'
  {
    if s != "" && s[|s| - 1] == '/' then RStrip(s[..|s| - 1]) else s
  }

  const TENANT := "ogma:tenant_id="
  const USER := "ogma:user_id="
  const EMAIL := "ogma:user_email="

  function Scopes(d: OAuth.TokenData): seq<string> {
    (if d.scopes == [] then ["log_interaction"] else d.scopes)
    + [TENANT + d.identity.tenantId, USER + d.identity.userId, EMAIL + d.identity.userEmail]
  }

  function Build(token: string, row: OAuth.TokenRow): AccessToken {
    AccessToken(token, row.data.clientId, Scopes(row.data), row.expiresAt, row.data.resource)
  }

  predicate ForUs(cfg: OAuth.Config, row: OAuth.TokenRow) {
    RStrip(row.data.resource) == RStrip(cfg.resourceIndicator)
  }

  /** What a database lookup alone would answer. */
  function Lookup(cfg: OAuth.Config, t: Table, token: string, now: int): Option<AccessToken> {
    var h := cfg.hashBearer(token);
    if token == "" || h !in t.rows || h in t.revoked || t.rows[h].expiresAt <= now || !ForUs(cfg, t.rows[h]) then None
    else Some(Build(token, t.rows[h]))
  }

  // ---- The cache ----

  function Find(c: Cache, h: string): Option<CacheEntry> {
    if c == [] then None else if c[0].hash == h then Some(c[0]) else Find(c[1..], h)
  }

  function Drop(c: Cache, h: string): (r: Cache)
    ensures |r| <= |c|
  {
    if c == [] then [] else if c[0].hash == h then c[1..] else [c[0]] + Drop(c[1..], h)
  }

  /** Assigning to a dict: an existing key keeps its place, a new one goes last. */
  function Assign(c: Cache, e: CacheEntry): (r: Cache)
    ensures |r| == if Find(c, e.hash).Some? then |c| else |c| + 1
  {
    if c == [] then [e] else if c[0].hash == e.hash then [e] + c[1..] else [c[0]] + Assign(c[1..], e)
  }

  function CacheGet(c: Cache, h: string, now: int): (Option<AccessToken>, Cache) {
    match Find(c, h)
    case None => (None, c)
    case Some(e) => if e.expiresAt <= now then (None, Drop(c, h)) else (Some(e.token), c)
  }

  function CachePut(c: Cache, e: CacheEntry): (r: Cache)
    ensures |c| <= CACHE_MAX_ENTRIES ==> |r| <= CACHE_MAX_ENTRIES
  {
    Assign(if |c| >= CACHE_MAX_ENTRIES then c[1..] else c, e)
  }

  /** `verify_token`; `dbOk` is false when the lookup raises. */
  function Verify(cfg: OAuth.Config, t: Table, c: Cache, token: string, now: int, dbOk: bool)
    : (Option<AccessToken>, Cache)
  {
    if token == "" then (None, c)
    else
      var h := cfg.hashBearer(token);
      var (hit, after) := CacheGet(c, h, now);
      if hit.Some? then (hit, after)
      else if !dbOk then (None, after)
      else
        match Lookup(cfg, t, token, now)
        case None => (None, after)
        case Some(a) => (Some(a), CachePut(after, CacheEntry(h, a, t.rows[h].expiresAt)))
  }

  // ---- What the cache holds ----

  predicate EntryOk(cfg: OAuth.Config, t: Table, e: CacheEntry) {
    && e.hash in t.rows
    && e.expiresAt == t.rows[e.hash].expiresAt
    && ForUs(cfg, t.rows[e.hash])
    && e.token.token != "" && cfg.hashBearer(e.token.token) == e.hash
    && e.token == Build(e.token.token, t.rows[e.hash])
  }

  /** A dict: one entry per hash. */
  predicate Keyed(c: Cache) {
    c == [] || (Find(c[1..], c[0].hash) == None && Keyed(c[1..]))
  }

  ghost predicate CacheInv(cfg: OAuth.Config, t: Table, c: Cache) {
    && |c| <= CACHE_MAX_ENTRIES && Keyed(c)
    && forall i :: 0 <= i < |c| ==> EntryOk(cfg, t, c[i])
  }

  ghost predicate Ideal(cfg: OAuth.Config) {
    forall s, t :: cfg.hashBearer(s) == cfg.hashBearer(t) ==> s == t
  }

  lemma {:induction false} FindIsIn(c: Cache, h: string)
    ensures Find(c, h).Some? ==> Find(c, h).value in c && Find(c, h).value.hash == h
  {
    if c != [] {
      FindIsIn(c[1..], h);
    }
  }

  lemma {:induction false} DropIsFrom(c: Cache, h: string)
    ensures forall i :: 0 <= i < |Drop(c, h)| ==> Drop(c, h)[i] in c
  {
    if c != [] {
      DropIsFrom(c[1..], h);
    }
  }

  lemma {:induction false} AssignIsFrom(c: Cache, e: CacheEntry)
    ensures forall i :: 0 <= i < |Assign(c, e)| ==> Assign(c, e)[i] == e || Assign(c, e)[i] in c
  {
    if c != [] {
      AssignIsFrom(c[1..], e);
    }
  }

  lemma {:induction false} FindDrop(c: Cache, h: string, k: string)
    requires Keyed(c)
    ensures Find(Drop(c, h), k) == if k == h then None else Find(c, k)
  {
    if c != [] && c[0].hash != h {
      FindDrop(c[1..], h, k);
    }
  }

  lemma {:induction false} FindAssign(c: Cache, e: CacheEntry, k: string)
    ensures Find(Assign(c, e), k) == if k == e.hash then Some(e) else Find(c, k)
  {
    if c != [] && c[0].hash != e.hash {
      FindAssign(c[1..], e, k);
    }
  }

  lemma {:induction false} DropKeyed(c: Cache, h: string)
    requires Keyed(c)
    ensures Keyed(Drop(c, h))
  {
    if c != [] && c[0].hash != h {
      DropKeyed(c[1..], h);
      FindDrop(c[1..], h, c[0].hash);
    }
  }

  lemma {:induction false} AssignKeyed(c: Cache, e: CacheEntry)
    requires Keyed(c)
    ensures Keyed(Assign(c, e))
  {
    if c != [] && c[0].hash != e.hash {
      AssignKeyed(c[1..], e);
      FindAssign(c[1..], e, c[0].hash);
    }
  }

  /** Reading takes away an expired entry, and no other. */
  lemma GetOutcome(c: Cache, h: string, now: int, k: string)
    requires Keyed(c)
    ensures var (r, after) := CacheGet(c, h, now);
            && Keyed(after)
            && (r.Some? <==> Find(c, h).Some? && now < Find(c, h).value.expiresAt)
            && (r.Some? ==> r.value == Find(c, h).value.token)
            && Find(after, k) == if k == h && r.None? then None else Find(c, k)
  {
    DropKeyed(c, h);
    FindDrop(c, h, k);
  }

  /** Writing adds the entry; when the cache is full the oldest entry goes, and no other. */
  lemma PutOutcome(c: Cache, e: CacheEntry, k: string)
    requires Keyed(c)
    ensures Keyed(CachePut(c, e))
    ensures Find(CachePut(c, e), k)
         == if k == e.hash then Some(e) else if |c| >= 1024 && k == c[0].hash then None else Find(c, k)
  {
    var room := if |c| >= CACHE_MAX_ENTRIES then c[1..] else c;
    AssignKeyed(room, e);
    FindAssign(room, e, k);
  }

  /** An accepted token is accepted again without the database, until its entry expires. */
  lemma HitNeedsNoDatabase(cfg: OAuth.Config, t: Table, c: Cache, token: string, now: int, dbOk: bool, t': Table,
                           later: int)
    requires Keyed(c) && Verify(cfg, t, c, token, now, dbOk).0.Some?
    ensures var (a, c') := Verify(cfg, t, c, token, now, dbOk);
            var h := cfg.hashBearer(token);
            && Find(c', h).Some? && now < Find(c', h).value.expiresAt
            && (later < Find(c', h).value.expiresAt ==> Verify(cfg, t', c', token, later, false) == (a, c'))
  {
    var h := cfg.hashBearer(token);
    GetOutcome(c, h, now, h);
    var after := CacheGet(c, h, now).1;
    if CacheGet(c, h, now).0.None? {
      PutOutcome(after, CacheEntry(h, Lookup(cfg, t, token, now).value, t.rows[h].expiresAt), h);
    }
  }

  lemma VerifyKeepsInv(cfg: OAuth.Config, t: Table, c: Cache, token: string, now: int, dbOk: bool)
    requires CacheInv(cfg, t, c)
    ensures CacheInv(cfg, t, Verify(cfg, t, c, token, now, dbOk).1)
  {
    if token != "" {
      var h := cfg.hashBearer(token);
      var after := CacheGet(c, h, now).1;
      FindIsIn(c, h);
      DropIsFrom(c, h);
      GetOutcome(c, h, now, h);
      assert CacheInv(cfg, t, after);
      var a := Lookup(cfg, t, token, now);
      if a.Some? {
        var e := CacheEntry(h, a.value, t.rows[h].expiresAt);
        AssignIsFrom(if |after| >= CACHE_MAX_ENTRIES then after[1..] else after, e);
        PutOutcome(after, e, h);
        assert EntryOk(cfg, t, e);
        assert CacheInv(cfg, t, CachePut(after, e));
      }
    }
  }

  /** A cached token that a fresh lookup would refuse: it was revoked after it was cached. */
  predicate Stale(cfg: OAuth.Config, t: Table, c: Cache, token: string, now: int) {
    var h := cfg.hashBearer(token);
    token != "" && h in t.revoked && Find(c, h).Some? && Find(c, h).value.expiresAt > now
  }

  /** The cached check answers as the lookup would, except for a stale token: until it
      expires, that is still accepted. */
  lemma CachedAnswer(cfg: OAuth.Config, t: Table, c: Cache, token: string, now: int)
    requires Ideal(cfg) && CacheInv(cfg, t, c)
    ensures Verify(cfg, t, c, token, now, true).0 == Lookup(cfg, t, token, now) <==> !Stale(cfg, t, c, token, now)
    ensures Verify(cfg, t, c, token, now, true).0.Some? ==>
              var h := cfg.hashBearer(token);
              h in t.rows && now < t.rows[h].expiresAt
                  && Verify(cfg, t, c, token, now, true).0 == Some(Build(token, t.rows[h]))
  {
    var h := cfg.hashBearer(token);
    FindIsIn(c, h);
    if Find(c, h).Some? {
      var i :| 0 <= i < |c| && c[i] == Find(c, h).value;
      assert EntryOk(cfg, t, c[i]);
    }
  }

  // ---- Whole runs ----

  datatype Action =
    | Insert(hash: string, row: OAuth.TokenRow)
    | Revoke(hash: string)
    | Check(token: string, now: int, dbOk: bool)

  datatype World = World(table: Table, cache: Cache)

  /** `token_hash` is the primary key: a second insert of it fails. */
  function Step(cfg: OAuth.Config, w: World, a: Action): World {
    match a
    case Insert(h, row) => if h in w.table.rows then w else w.(table := w.table.(rows := w.table.rows[h := row]))
    case Revoke(h) => w.(table := w.table.(revoked := w.table.revoked + {h}))
    case Check(token, now, dbOk) => w.(cache := Verify(cfg, w.table, w.cache, token, now, dbOk).1)
  }

  function Run(cfg: OAuth.Config, actions: seq<Action>): World {
    if actions == [] then World(Table(map[], {}), [])
    else Step(cfg, Run(cfg, actions[..|actions| - 1]), actions[|actions| - 1])
  }

  lemma StepKeepsInv(cfg: OAuth.Config, w: World, a: Action)
    requires CacheInv(cfg, w.table, w.cache)
    ensures CacheInv(cfg, Step(cfg, w, a).table, Step(cfg, w, a).cache)
  {
    if a.Check? {
      VerifyKeepsInv(cfg, w.table, w.cache, a.token, a.now, a.dbOk);
    } else {
      var t := Step(cfg, w, a).table;
      forall i | 0 <= i < |w.cache| ensures EntryOk(cfg, t, w.cache[i]) {
        assert EntryOk(cfg, w.table, w.cache[i]);
      }
    }
  }

  lemma {:induction false} RunKeepsInv(cfg: OAuth.Config, actions: seq<Action>)
    ensures CacheInv(cfg, Run(cfg, actions).table, Run(cfg, actions).cache)
  {
    if actions != [] {
      RunKeepsInv(cfg, actions[..|actions| - 1]);
      StepKeepsInv(cfg, Run(cfg, actions[..|actions| - 1]), actions[|actions| - 1]);
    }
  }

  lemma {:induction false} NothingRevoked(cfg: OAuth.Config, actions: seq<Action>)
    requires forall i :: 0 <= i < |actions| ==> !actions[i].Revoke?
    ensures Run(cfg, actions).table.revoked == {}
  {
    if actions != [] {
      NothingRevoked(cfg, actions[..|actions| - 1]);
    }
  }

  /** After any run the cache is bounded, and a token whose row was never revoked is
      answered exactly as the table answers it, whatever the clock did. */
  lemma CacheRefinesLookup(cfg: OAuth.Config, actions: seq<Action>, token: string, now: int)
    requires Ideal(cfg)
    ensures |Run(cfg, actions).cache| <= CACHE_MAX_ENTRIES
    ensures var w := Run(cfg, actions);
            Verify(cfg, w.table, w.cache, token, now, true).0 == Lookup(cfg, w.table, token, now)
            <==> !Stale(cfg, w.table, w.cache, token, now)
    ensures var w := Run(cfg, actions);
            (forall i :: 0 <= i < |actions| ==> !actions[i].Revoke?) ==>
            Verify(cfg, w.table, w.cache, token, now, true).0 == Lookup(cfg, w.table, token, now)
  {
    RunKeepsInv(cfg, actions);
    var w := Run(cfg, actions);
    CachedAnswer(cfg, w.table, w.cache, token, now);
    if forall i :: 0 <= i < |actions| ==> !actions[i].Revoke? {
      NothingRevoked(cfg, actions);
    }
  }

  lemma RunMore(cfg: OAuth.Config, actions: seq<Action>, a: Action)
    ensures Run(cfg, actions + [a]) == Step(cfg, Run(cfg, actions), a)
  {
    assert (actions + [a])[..|actions|] == actions;
  }

  /** The stale window is real: a run in which a token is issued, checked, then revoked, and is
      still accepted. */
  lemma RevokedIsStillAccepted(cfg: OAuth.Config, token: string, row: OAuth.TokenRow, now: int)
    requires token != "" && now < row.expiresAt && ForUs(cfg, row)
    ensures var h := cfg.hashBearer(token);
            var w := Run(cfg, [Insert(h, row)] + [Check(token, now, true)] + [Revoke(h)]);
            Lookup(cfg, w.table, token, now) == None && Verify(cfg, w.table, w.cache, token, now, true).0.Some?
  {
    var h := cfg.hashBearer(token);
    var t := Table(map[h := row], {});
    assert [] + [Insert(h, row)] == [Insert(h, row)];
    RunMore(cfg, [], Insert(h, row));
    RunMore(cfg, [Insert(h, row)], Check(token, now, true));
    RunMore(cfg, [Insert(h, row)] + [Check(token, now, true)], Revoke(h));
    assert Find([], h) == None;
    assert CacheGet([], h, now) == (None, []);
    var e := CacheEntry(h, Build(token, row), row.expiresAt);
    assert Assign([], e) == [e];
    assert Verify(cfg, t, [], token, now, true).1 == [e];
    assert Find([e], h) == Some(e);
  }

  // ---- The identity in the scopes ----

  function LastValue(scopes: seq<string>, marker: string): Option<string> {
    if scopes == [] then None
    else
      var last := scopes[|scopes| - 1];
      if marker <= last then Some(last[|marker|..]) else LastValue(scopes[..|scopes| - 1], marker)
  }

  function IdentityOf(scopes: seq<string>): Option<OAuth.Identity> {
    var t, u, e := LastValue(scopes, TENANT), LastValue(scopes, USER), LastValue(scopes, EMAIL);
    if OAuth.Given(t) && OAuth.Given(u) && OAuth.Given(e) then Some(OAuth.Identity(t.value, u.value, e.value)) else None
  }

  lemma MarkersDiffer(s: string)
    ensures !(TENANT <= s && USER <= s) && !(TENANT <= s && EMAIL <= s) && !(USER <= s && EMAIL <= s)
  {
    assert TENANT[5] == 't' && USER[5] == 'u' && EMAIL[5] == 'u';
    assert USER[10] == 'i' && EMAIL[10] == 'e';
  }

  /** `identity_from_access_token`: the last marker of each kind wins. */
  method IdentityFromAccessToken(a: AccessToken) returns (r: Option<OAuth.Identity>)
    ensures r == IdentityOf(a.scopes)
  {
    var tenantId: Option<string>, userId: Option<string>, userEmail: Option<string> := None, None, None;
    for i := 0 to |a.scopes|
      invariant tenantId == LastValue(a.scopes[..i], TENANT)
      invariant userId == LastValue(a.scopes[..i], USER)
      invariant userEmail == LastValue(a.scopes[..i], EMAIL)
    {
      var s := a.scopes[i];
      assert a.scopes[..i + 1][..i] == a.scopes[..i];
      MarkersDiffer(s);
      if TENANT <= s {
        tenantId := Some(s[|TENANT|..]);
      } else if USER <= s {
        userId := Some(s[|USER|..]);
      } else if EMAIL <= s {
        userEmail := Some(s[|EMAIL|..]);
      }
    }
    assert a.scopes[..|a.scopes|] == a.scopes;
    if !(OAuth.Given(tenantId) && OAuth.Given(userId) && OAuth.Given(userEmail)) {
      return None;
    }
    return Some(OAuth.Identity(tenantId.value, userId.value, userEmail.value));
  }

  lemma LastValueSkips(scopes: seq<string>, s: string, marker: string)
    ensures LastValue(scopes + [s], marker) == if marker <= s then Some(s[|marker|..]) else LastValue(scopes, marker)
  {
    assert (scopes + [s])[..|scopes|] == scopes;
  }

  lemma MarkedValue(marker: string, value: string)
    ensures marker <= marker + value && (marker + value)[|marker|..] == value
  {
  }

  /** The packed identity is read back whatever the granted scopes are, even ones that look
      like identity markers; it is None exactly when a part is empty. */
  lemma IdentityRoundTrip(d: OAuth.TokenData)
    ensures IdentityOf(Scopes(d))
         == if d.identity.tenantId != "" && d.identity.userId != "" && d.identity.userEmail != ""
            then Some(d.identity) else None
  {
    var granted := if d.scopes == [] then ["log_interaction"] else d.scopes;
    var t, u, e := TENANT + d.identity.tenantId, USER + d.identity.userId, EMAIL + d.identity.userEmail;
    assert Scopes(d) == granted + [t] + [u] + [e];
    MarkedValue(TENANT, d.identity.tenantId);
    MarkedValue(USER, d.identity.userId);
    MarkedValue(EMAIL, d.identity.userEmail);
    MarkersDiffer(t);
    MarkersDiffer(u);
    MarkersDiffer(e);
    LastValueSkips(granted + [t] + [u], e, EMAIL);
    LastValueSkips(granted + [t] + [u], e, USER);
    LastValueSkips(granted + [t], u, USER);
    LastValueSkips(granted + [t] + [u], e, TENANT);
    LastValueSkips(granted + [t], u, TENANT);
    LastValueSkips(granted, t, TENANT);
  }

  /** End to end, spike mode off: a bearer the table accepts acts as the identity of the verified
      bridge JWT, and for the client, of the very `/authorize` call it descends from. */
  lemma VerifiedIdentityIsAuthorized(cfg: OAuth.Config, actions: seq<OAuthRuns.Action>, revoked: set<string>,
                                     token: string, now: int)
    returns (h: nat, i: nat, j: nat, k: nat)
    requires cfg.spike.None?
    requires Lookup(cfg, Table(OAuthRuns.Run(cfg, actions).sv.tokens, revoked), token, now).Some?
    ensures var w := OAuthRuns.Run(cfg, actions);
            var a := Lookup(cfg, Table(w.sv.tokens, revoked), token, now).value;
            && h < i < j <= k < |w.log|
            && OAuthRuns.Lineage(cfg, actions, cfg.hashBearer(token), h, i, j, k)
            && IdentityOf(a.scopes) == Some(w.log[i].grant.identity) && a.clientId == w.log[h].request.clientId
  {
    h, i, j, k := OAuthRuns.TokenProvenance(cfg, actions, cfg.hashBearer(token));
    IdentityRoundTrip(OAuthRuns.Run(cfg, actions).sv.tokens[cfg.hashBearer(token)].data);
  }

  // ---- The verifier ----

  class Verifier {
    var cache: Cache

    constructor ()
      ensures cache == []
    {
      cache := [];
    }

    method Get(h: string, now: int) returns (r: Option<AccessToken>)
      modifies this
      ensures (r, cache) == CacheGet(old(cache), h, now)
    {
      var found := Find(cache, h);
      if found.None? {
        return None;
      }
      if found.value.expiresAt <= now {
        cache := Drop(cache, h);
        return None;
      }
      return Some(found.value.token);
    }

    method Put(h: string, a: AccessToken, expiresAt: int)
      modifies this
      ensures cache == CachePut(old(cache), CacheEntry(h, a, expiresAt))
      ensures Keyed(old(cache)) ==>
                forall k :: Find(cache, k) == (if k == h then Some(CacheEntry(h, a, expiresAt))
                                               else if |old(cache)| >= 1024 && k == old(cache)[0].hash then None
                                               else Find(old(cache), k))
      ensures |old(cache)| <= CACHE_MAX_ENTRIES ==> |cache| <= CACHE_MAX_ENTRIES
    {
      if Keyed(cache) {
        forall k {
          PutOutcome(cache, CacheEntry(h, a, expiresAt), k);
        }
      }
      if |cache| >= CACHE_MAX_ENTRIES {
        cache := cache[1..];
      }
      cache := Assign(cache, CacheEntry(h, a, expiresAt));
    }

    /** `verify_token` */
    method VerifyToken(cfg: OAuth.Config, t: Table, token: string, now: int, dbOk: bool)
      returns (r: Option<AccessToken>)
      requires Ideal(cfg) && CacheInv(cfg, t, cache)
      modifies this
      ensures CacheInv(cfg, t, cache)
      ensures (r, cache) == Verify(cfg, t, old(cache), token, now, dbOk)
      ensures dbOk ==> (r == Lookup(cfg, t, token, now) <==> !Stale(cfg, t, old(cache), token, now))
    {
      VerifyKeepsInv(cfg, t, cache, token, now, dbOk);
      CachedAnswer(cfg, t, cache, token, now);
      if token == "" {
        return None;
      }
      var h := cfg.hashBearer(token);
      r := Get(h, now);
      if r.Some? {
        return;
      }
      if !dbOk {
        return None;
      }
      if h !in t.rows || h in t.revoked || t.rows[h].expiresAt <= now {
        return None;
      }
      if RStrip(t.rows[h].data.resource) != RStrip(cfg.resourceIndicator) {
        return None;
      }
      r := Some(Build(token, t.rows[h]));
      Put(h, r.value, t.rows[h].expiresAt);
    }
  }
}
