/**
 The authorization server's endpoints: authorize, bridge callback, code exchange and
 refresh rotation, over three one-shot stores and the token table.
 Random secrets are parameters; `OAuthRuns` makes them fresh.
 */
module OAuth {
  import opened Wrappers
  import opened ExpiringStore
  import Base64Url
  import BridgeKeys
  import Utf8

  const AUTH_CODE_TTL := 600
  const STATE_TTL := 600

  const ALLOWED_REDIRECT_URI_PREFIXES := [
    "https://claude.ai/api/mcp/auth_callback",
    "https://claude.com/api/mcp/auth_callback",
    "http://localhost:6274/oauth/callback",
    "http://localhost:6274/oauth/callback/debug"]

  type Digest = b: seq<Base64Url.byte> | |b| == 32 witness seq(32, _ => 0)

  datatype Identity = Identity(tenantId: string, userId: string, userEmail: string)

  /** The claims of a bridge JWT; None for one that is absent or not a string. */
  datatype Claims = Claims(mcpState: Option<string>, tenantId: Option<string>, userId: Option<string>,
                           userEmail: Option<string>)

  /** `verify` stands for the JWT library under the given key, at the given time. */
  datatype Config = Config(
    sha256: seq<Base64Url.byte> -> Digest,
    hashBearer: string -> string,
    verify: (BridgeKeys.Jwk, string, int) -> Option<Claims>,
    resourceIndicator: string,
    accessTtl: int,
    refreshTtl: int,
    spike: Option<Option<Identity>>)

  datatype Client = Client(redirectUris: seq<string>, deleted: bool)

  /** What `/authorize` was asked for, defaults filled in. */
  datatype AuthRequest = AuthRequest(clientId: string, redirectUri: string, challenge: string,
                                     resource: string, scope: string, claudeState: Option<string>)

  datatype CodeGrant = CodeGrant(request: AuthRequest, identity: Identity)

  datatype TokenData = TokenData(clientId: string, identity: Identity, resource: string, scopes: seq<string>)

  datatype TokenRow = TokenRow(data: TokenData, expiresAt: int, refreshHash: string)

  datatype Server = Server(
    clients: map<string, Client>,
    jwk: Option<BridgeKeys.Jwk>,
    states: Store<AuthRequest>,
    codes: Store<CodeGrant>,
    refresh: Store<TokenData>,
    tokens: map<string, TokenRow>)

  datatype Error =
    | UnsupportedResponseType | InvalidRequest | InvalidRedirectUri | InvalidClient | InvalidGrant
    | ServerNotReady | SpikeMisconfigured | Crash

  datatype Response =
    | ToBridge(mcpState: string)
    | ToClient(redirectUri: string, code: string, claudeState: Option<string>)
    | Tokens(access: string, refreshToken: string, scopes: seq<string>)
    | Done
    | Refused(error: Error)

  /** What an endpoint produced, for the history of a run. */
  datatype Event =
    | Authorized(mcpState: string, request: AuthRequest, at: int)
    | Called(jwk: BridgeKeys.Jwk, token: string, at: int, spentState: string, newCode: string, grant: CodeGrant)
    | Spiked(newCode: string, grant: CodeGrant, at: int)
    | Exchanged(spentCode: string, verifier: string, access: string, newRefresh: string, data: TokenData, at: int)
    | Rotated(spentRefresh: string, access: string, newRefresh: string, data: TokenData, at: int)

  datatype Outcome = Outcome(server: Server, response: Response, events: seq<Event>)

  function Refuse(sv: Server, e: Error): Outcome {
    Outcome(sv, Refused(e), [])
  }

  // ---- /authorize ----

  datatype AuthorizeParams = AuthorizeParams(
    clientId: string, redirectUri: string, responseType: string, challenge: Option<string>,
    challengeMethod: Option<string>, state: Option<string>, resource: Option<string>, scope: Option<string>)

  /** Python truth of an optional string. */
  predicate Given(s: Option<string>) {
    s.Some? && s.value != ""
  }

  function Or(s: Option<string>, otherwise: string): string {
    if Given(s) then s.value else otherwise
  }

  predicate RedirectUriAllowed(uri: string) {
    exists i :: 0 <= i < |ALLOWED_REDIRECT_URI_PREFIXES| && ALLOWED_REDIRECT_URI_PREFIXES[i] <= uri
  }

  /** The allowlist, by its four prefixes. */
  lemma AllowlistIs(uri: string)
    ensures RedirectUriAllowed(uri) <==>
            || "https://claude.ai/api/mcp/auth_callback" <= uri
            || "https://claude.com/api/mcp/auth_callback" <= uri
            || "http://localhost:6274/oauth/callback" <= uri
            || "http://localhost:6274/oauth/callback/debug" <= uri
  {
    assert "https://claude.ai/api/mcp/auth_callback" == ALLOWED_REDIRECT_URI_PREFIXES[0];
    assert "https://claude.com/api/mcp/auth_callback" == ALLOWED_REDIRECT_URI_PREFIXES[1];
    assert "http://localhost:6274/oauth/callback" == ALLOWED_REDIRECT_URI_PREFIXES[2];
    assert "http://localhost:6274/oauth/callback/debug" == ALLOWED_REDIRECT_URI_PREFIXES[3];
  }

  /** `/register`: every redirect URI must be on the allowlist. */
  function Register(sv: Server, uris: seq<string>, clientId: string): (Server, Option<Error>) {
    if uris == [] then (sv, Some(InvalidRequest))
    else if exists i :: 0 <= i < |uris| && !RedirectUriAllowed(uris[i]) then (sv, Some(InvalidRedirectUri))
    else (sv.(clients := sv.clients[clientId := Client(uris, false)]), None)
  }

  function AuthorizeCheck(sv: Server, p: AuthorizeParams): Option<Error> {
    if p.responseType != "code" then Some(UnsupportedResponseType)
    else if !Given(p.challenge) || p.challengeMethod != Some("S256") then Some(InvalidRequest)
    else if !RedirectUriAllowed(p.redirectUri) then Some(InvalidRedirectUri)
    else if p.clientId !in sv.clients || sv.clients[p.clientId].deleted then Some(InvalidClient)
    else if p.redirectUri !in sv.clients[p.clientId].redirectUris then Some(InvalidRedirectUri)
    else None
  }

  function RequestOf(cfg: Config, p: AuthorizeParams): AuthRequest {
    AuthRequest(p.clientId, p.redirectUri, Or(p.challenge, ""), Or(p.resource, cfg.resourceIndicator),
                Or(p.scope, "log_interaction"), p.state)
  }

  /** `_mint_code_and_redirect` */
  function MintCode(sv: Server, g: CodeGrant, code: string, now: int): Server {
    sv.(codes := Put(sv.codes, code, g, AUTH_CODE_TTL, now, now))
  }

  function Authorize(cfg: Config, sv: Server, p: AuthorizeParams, secret: string, now: int): Outcome {
    match AuthorizeCheck(sv, p)
    case Some(e) => Refuse(sv, e)
    case None =>
      var r := RequestOf(cfg, p);
      match cfg.spike
      case Some(None) => Refuse(sv, SpikeMisconfigured)
      case Some(Some(id)) =>
        Outcome(MintCode(sv, CodeGrant(r, id), secret, now), ToClient(r.redirectUri, secret, r.claudeState),
                [Spiked(secret, CodeGrant(r, id), now)])
      case None =>
        Outcome(sv.(states := sv.states[secret := Entry(r, now + STATE_TTL)]), ToBridge(secret),
                [Authorized(secret, r, now)])
  }

  // ---- /authorize/callback ----

  function IdentityOf(c: Claims): Option<Identity> {
    if Given(c.tenantId) && Given(c.userId) && Given(c.userEmail) then
      Some(Identity(c.tenantId.value, c.userId.value, c.userEmail.value))
    else None
  }

  /** The state is claimed before the identity is looked at. */
  function Callback(cfg: Config, sv: Server, token: string, code: string, now: int): Outcome {
    if sv.jwk.None? then Refuse(sv, ServerNotReady)
    else
      match cfg.verify(sv.jwk.value, token, now)
      case None => Refuse(sv, InvalidGrant)
      case Some(claims) =>
        if !Given(claims.mcpState) then Refuse(sv, InvalidGrant)
        else
          var (claimed, states) := Pop(sv.states, claims.mcpState.value, now);
          var after := sv.(states := states);
          match (claimed, IdentityOf(claims))
          case (Some(r), Some(id)) =>
            Outcome(MintCode(after, CodeGrant(r, id), code, now), ToClient(r.redirectUri, code, r.claudeState),
                    [Called(sv.jwk.value, token, now, claims.mcpState.value, code, CodeGrant(r, id))])
          case _ => Refuse(after, InvalidGrant)
  }

  // ---- /token ----

  /** S256: unpadded base64url of the digest of the verifier. */
  function Challenge(cfg: Config, verifier: string): string {
    Base64Url.Encode(cfg.sha256(Utf8.Encode(verifier)))
  }

  datatype TokenForm = TokenForm(code: Option<string>, verifier: Option<string>, clientId: Option<string>,
                                 redirectUri: Option<string>, refreshToken: Option<string>)

  /** The secrets an endpoint draws and whether its INSERT commits. */
  datatype Draw = Draw(access: string, refreshToken: string, dbOk: bool)

  /** Comparing digests raises on a challenge that is not ASCII. */
  function CodeCheck(cfg: Config, f: TokenForm, g: CodeGrant): Option<Error>
    requires Given(f.verifier) && Given(f.clientId)
  {
    if g.request.clientId != f.clientId.value then Some(InvalidGrant)
    else if Given(f.redirectUri) && g.request.redirectUri != f.redirectUri.value then Some(InvalidGrant)
    else if !Base64Url.IsAscii(g.request.challenge) then Some(Crash)
    else if Challenge(cfg, f.verifier.value) != g.request.challenge then Some(InvalidGrant)
    else None
  }

  function DataOf(g: CodeGrant): TokenData {
    TokenData(g.request.clientId, g.identity, g.request.resource, [g.request.scope])
  }

  /** `_issue_token_pair`: the row first, then the refresh entry. */
  function IssuePair(cfg: Config, sv: Server, data: TokenData, d: Draw, now: int): (Server, Response) {
    if !d.dbOk then (sv, Refused(Crash))
    else
      var access, refresh := cfg.hashBearer(d.access), cfg.hashBearer(d.refreshToken);
      (sv.(tokens := sv.tokens[access := TokenRow(data, now + cfg.accessTtl, refresh)],
           refresh := Put(sv.refresh, refresh, data, cfg.refreshTtl, now, now)),
       Tokens(d.access, d.refreshToken, data.scopes))
  }

  /** The code is spent before anything about it is checked. */
  function Exchange(cfg: Config, sv: Server, f: TokenForm, d: Draw, now: int): Outcome {
    if !(Given(f.code) && Given(f.verifier) && Given(f.clientId)) then Refuse(sv, InvalidRequest)
    else
      var (found, codes) := Pop(sv.codes, f.code.value, now);
      var after := sv.(codes := codes);
      match found
      case None => Refuse(after, InvalidGrant)
      case Some(g) =>
        match CodeCheck(cfg, f, g)
        case Some(e) => Refuse(after, e)
        case None =>
          var (issued, response) := IssuePair(cfg, after, DataOf(g), d, now);
          Outcome(issued, response,
                  if d.dbOk then [Exchanged(f.code.value, f.verifier.value, cfg.hashBearer(d.access),
                                            cfg.hashBearer(d.refreshToken), DataOf(g), now)]
                  else [])
  }

  function Refresh(cfg: Config, sv: Server, f: TokenForm, d: Draw, now: int): Outcome {
    if !(Given(f.refreshToken) && Given(f.clientId)) then Refuse(sv, InvalidRequest)
    else
      var spent := cfg.hashBearer(f.refreshToken.value);
      var (found, refresh) := Pop(sv.refresh, spent, now);
      var after := sv.(refresh := refresh);
      match found
      case None => Refuse(after, InvalidGrant)
      case Some(data) =>
        if data.clientId != f.clientId.value then Refuse(after, InvalidGrant)
        else
          var (issued, response) := IssuePair(cfg, after, data, d, now);
          Outcome(issued, response,
                  if d.dbOk then [Rotated(spent, cfg.hashBearer(d.access), cfg.hashBearer(d.refreshToken), data, now)]
                  else [])
  }

  /** Whatever is accepted is the 43-character text of section 4.2 of RFC 7636, and decodes to
      the digest of the verifier; a challenge made from a digest is met by exactly the
      verifiers that hash to it. */
  lemma PkceMatches(cfg: Config, verifier: string, digest: Digest)
    ensures Challenge(cfg, verifier) == Base64Url.Encode(digest) <==> cfg.sha256(Utf8.Encode(verifier)) == digest
    ensures |Challenge(cfg, verifier)| == 43
    ensures forall i :: 0 <= i < 43 ==> Base64Url.InAlphabet(Challenge(cfg, verifier)[i])
    ensures Base64Url.Decode(Challenge(cfg, verifier)) == Some(cfg.sha256(Utf8.Encode(verifier)))
  {
    var own := cfg.sha256(Utf8.Encode(verifier));
    Base64Url.RoundTrip(digest);
    Base64Url.RoundTrip(own);
    Base64Url.EncodeIsUnpadded(own);
    Base64Url.UnpaddedShape(own);
  }

  // ---- What an answer is worth ----

  /** A request `/authorize` accepts: PKCE with S256, by a live client, for one of its own redirect
      URIs on the allowlist. */
  predicate Acceptable(sv: Server, p: AuthorizeParams) {
    && p.responseType == "code" && Given(p.challenge) && p.challengeMethod == Some("S256")
    && RedirectUriAllowed(p.redirectUri)
    && LiveClientIn(sv, p.clientId) && p.redirectUri in sv.clients[p.clientId].redirectUris
  }

  predicate LiveClientIn(sv: Server, clientId: string) {
    clientId in sv.clients && !sv.clients[clientId].deleted
  }

  /** The request kept under a state or a code is the one asked, parameter by parameter. */
  predicate Keeps(cfg: Config, r: AuthRequest, p: AuthorizeParams) {
    && r.clientId == p.clientId && r.redirectUri == p.redirectUri && r.claudeState == p.state
    && Some(r.challenge) == p.challenge
    && (if Given(p.resource) then Some(r.resource) == p.resource else r.resource == cfg.resourceIndicator)
    && (if Given(p.scope) then Some(r.scope) == p.scope else r.scope == "log_interaction")
  }

  /** Which requests go on, what is kept for them, and the first thing wrong with the others. */
  lemma AuthorizeOutcome(cfg: Config, sv: Server, p: AuthorizeParams, secret: string, now: int)
    ensures var o := Authorize(cfg, sv, p, secret, now);
            && (o.response.ToBridge? <==> Acceptable(sv, p) && cfg.spike.None?)
            && (o.response.ToBridge? ==>
                  && o.response.mcpState == secret && secret in o.server.states
                  && Keeps(cfg, o.server.states[secret].value, p)
                  && o.server.states[secret].expiresAt == now + 600)
    ensures var o := Authorize(cfg, sv, p, secret, now);
            && (o.response.ToClient? <==> Acceptable(sv, p) && cfg.spike.Some? && cfg.spike.value.Some?)
            && (o.response.ToClient? ==>
                  && o.response == ToClient(p.redirectUri, secret, p.state) && secret in o.server.codes
                  && Keeps(cfg, o.server.codes[secret].value.request, p)
                  && Some(o.server.codes[secret].value.identity) == cfg.spike.value
                  && o.server.codes[secret].expiresAt == now + 600)
    ensures var e := Authorize(cfg, sv, p, secret, now).response;
            && (e == Refused(UnsupportedResponseType) <==> p.responseType != "code")
            && (p.responseType == "code" ==>
                  (e == Refused(InvalidRequest) <==> !Given(p.challenge) || p.challengeMethod != Some("S256")))
            && (e == Refused(InvalidClient) ==> !LiveClientIn(sv, p.clientId))
            && (e == Refused(InvalidRedirectUri) ==>
                  !RedirectUriAllowed(p.redirectUri)
                  || (p.clientId in sv.clients && p.redirectUri !in sv.clients[p.clientId].redirectUris))
            && (e == Refused(SpikeMisconfigured) <==> Acceptable(sv, p) && cfg.spike == Some(None))
  {
  }

  /** A callback whose JWT is verified, names a state still good, and carries a whole identity. */
  predicate Welcome(cfg: Config, sv: Server, token: string, now: int) {
    && sv.jwk.Some? && cfg.verify(sv.jwk.value, token, now).Some?
    && var c := cfg.verify(sv.jwk.value, token, now).value;
       && Given(c.mcpState) && c.mcpState.value in sv.states && now < sv.states[c.mcpState.value].expiresAt
       && Given(c.tenantId) && Given(c.userId) && Given(c.userEmail)
  }

  /** The client is sent back, to its own URI and with its own state, exactly then; the code stands
      for the kept request and the identity of the JWT. */
  lemma CallbackOutcome(cfg: Config, sv: Server, token: string, code: string, now: int)
    ensures var o := Callback(cfg, sv, token, code, now);
            && (o.response.ToClient? <==> Welcome(cfg, sv, token, now))
            && (o.response.ToClient? ==>
                  var c := cfg.verify(sv.jwk.value, token, now).value;
                  var asked := sv.states[c.mcpState.value].value;
                  && o.response == ToClient(asked.redirectUri, code, asked.claudeState) && code in o.server.codes
                  && o.server.codes[code].value.request == asked
                  && Some(o.server.codes[code].value.identity.tenantId) == c.tenantId
                  && Some(o.server.codes[code].value.identity.userId) == c.userId
                  && Some(o.server.codes[code].value.identity.userEmail) == c.userEmail
                  && o.server.codes[code].expiresAt == now + 600)
    ensures Callback(cfg, sv, token, code, now).response == Refused(ServerNotReady) <==> sv.jwk.None?
    ensures !Welcome(cfg, sv, token, now) && sv.jwk.Some? ==>
              Callback(cfg, sv, token, code, now).response == Refused(InvalidGrant)
  {
  }

  /** A pair the server stands by: the access token for `accessTtl`, the refresh token for
      `refreshTtl`, both for this client, identity, resource and scopes. */
  predicate StandsBy(cfg: Config, sv: Server, r: Response, data: TokenData, now: int) {
    && r.Tokens? && r.scopes == data.scopes
    && var access, refresh := cfg.hashBearer(r.access), cfg.hashBearer(r.refreshToken);
       && access in sv.tokens && refresh in sv.refresh
       && sv.tokens[access].data == data && sv.tokens[access].expiresAt == now + cfg.accessTtl
       && sv.tokens[access].refreshHash == refresh
       && sv.refresh[refresh].value == data && sv.refresh[refresh].expiresAt == now + cfg.refreshTtl
  }

  predicate Complete(f: TokenForm) {
    Given(f.code) && Given(f.verifier) && Given(f.clientId)
  }

  /** A code still good, in the hands of its client, which may name its redirect URI. */
  predicate InHand(sv: Server, f: TokenForm, now: int)
    requires Complete(f)
  {
    && f.code.value in sv.codes && now < sv.codes[f.code.value].expiresAt
    && var asked := sv.codes[f.code.value].value.request;
       && asked.clientId == f.clientId.value
       && (Given(f.redirectUri) ==> asked.redirectUri == f.redirectUri.value)
  }

  /** That, and a verifier that meets the challenge of section 4.6 of RFC 7636. */
  predicate Redeemable(cfg: Config, sv: Server, f: TokenForm, now: int) {
    && Complete(f) && InHand(sv, f, now)
    && sv.codes[f.code.value].value.request.challenge == Challenge(cfg, f.verifier.value)
  }

  /** An exchange answers a pair exactly for a redeemable code whose insert commits, and the server
      stands by it for what the code was granted; the other answers are told apart. */
  lemma ExchangeOutcome(cfg: Config, sv: Server, f: TokenForm, d: Draw, now: int)
    ensures var o := Exchange(cfg, sv, f, d, now);
            && (o.response.Tokens? <==> Redeemable(cfg, sv, f, now) && d.dbOk)
            && (o.response.Tokens? ==>
                  var g := sv.codes[f.code.value].value;
                  && StandsBy(cfg, o.server, o.response,
                              TokenData(g.request.clientId, g.identity, g.request.resource, [g.request.scope]), now)
                  && o.response.access == d.access && o.response.refreshToken == d.refreshToken)
    ensures var r := Exchange(cfg, sv, f, d, now).response;
            && (r == Refused(InvalidRequest) <==> !Complete(f))
            && (r == Refused(Crash) <==>
                  && Complete(f) && InHand(sv, f, now)
                  && if Redeemable(cfg, sv, f, now) then !d.dbOk
                     else !Base64Url.IsAscii(sv.codes[f.code.value].value.request.challenge))
            && (r.Tokens? || r in {Refused(InvalidRequest), Refused(Crash), Refused(InvalidGrant)})
  {
    if Complete(f) {
      PkceMatches(cfg, f.verifier.value, cfg.sha256(Utf8.Encode(f.verifier.value)));
    }
  }

  /** A refresh token still good, in the hands of its client. */
  predicate Renewable(cfg: Config, sv: Server, f: TokenForm, now: int) {
    && Given(f.refreshToken) && Given(f.clientId)
    && var h := cfg.hashBearer(f.refreshToken.value);
       h in sv.refresh && now < sv.refresh[h].expiresAt && sv.refresh[h].value.clientId == f.clientId.value
  }

  /** The same for a rotation: the new pair is for what the old one was. */
  lemma RefreshOutcome(cfg: Config, sv: Server, f: TokenForm, d: Draw, now: int)
    ensures var o := Refresh(cfg, sv, f, d, now);
            && (o.response.Tokens? <==> Renewable(cfg, sv, f, now) && d.dbOk)
            && (o.response.Tokens? ==>
                  && StandsBy(cfg, o.server, o.response, sv.refresh[cfg.hashBearer(f.refreshToken.value)].value, now)
                  && o.response.access == d.access && o.response.refreshToken == d.refreshToken)
    ensures var r := Refresh(cfg, sv, f, d, now).response;
            && (r == Refused(InvalidRequest) <==> !(Given(f.refreshToken) && Given(f.clientId)))
            && (r == Refused(Crash) <==> Renewable(cfg, sv, f, now) && !d.dbOk)
            && (r.Tokens? || r in {Refused(InvalidRequest), Refused(Crash), Refused(InvalidGrant)})
  {
  }

  // ---- One use only ----

  /** Once a verified callback has named a state, no later callback for it succeeds, whatever
      became of the first. */
  lemma StateIsOneShot(cfg: Config, sv: Server, token: string, code: string, now: int, again: string, code': string,
                       later: int)
    requires sv.jwk.Some? && cfg.verify(sv.jwk.value, token, now).Some?
    requires Given(cfg.verify(sv.jwk.value, token, now).value.mcpState)
    requires cfg.verify(sv.jwk.value, again, later).Some?
    requires cfg.verify(sv.jwk.value, again, later).value.mcpState
        == cfg.verify(sv.jwk.value, token, now).value.mcpState
    ensures Callback(cfg, Callback(cfg, sv, token, code, now).server, again, code', later).response
        == Refused(InvalidGrant)
  {
  }

  /** Once a code has been presented with a verifier and a client, no later exchange of it
      succeeds, even if the first failed the client or PKCE check. */
  lemma CodeIsOneShot(cfg: Config, sv: Server, f: TokenForm, d: Draw, now: int, f': TokenForm, d': Draw, later: int)
    requires Given(f.code) && Given(f.verifier) && Given(f.clientId)
    requires f'.code == f.code && Given(f'.verifier) && Given(f'.clientId)
    ensures Exchange(cfg, Exchange(cfg, sv, f, d, now).server, f', d', later).response == Refused(InvalidGrant)
  {
  }

  /** The same for a refresh token, provided the new one is not the old one. */
  lemma RefreshIsOneShot(cfg: Config, sv: Server, f: TokenForm, d: Draw, now: int, f': TokenForm, d': Draw, later: int)
    requires Given(f.refreshToken) && Given(f.clientId)
    requires f'.refreshToken == f.refreshToken && Given(f'.clientId)
    requires cfg.hashBearer(d.refreshToken) != cfg.hashBearer(f.refreshToken.value)
    ensures Refresh(cfg, Refresh(cfg, sv, f, d, now).server, f', d', later).response == Refused(InvalidGrant)
  {
    var spent := cfg.hashBearer(f.refreshToken.value);
    var once := Refresh(cfg, sv, f, d, now).server;
    assert spent !in once.refresh;
  }

  // ---- The running server ----

  class AuthServer {
    var clients: map<string, Client>
    var jwk: Option<BridgeKeys.Jwk>
    var states: Store<AuthRequest>
    const codes: MemoryStore<CodeGrant>
    const refresh: MemoryStore<TokenData>
    var tokens: map<string, TokenRow>

    function State(): Server
      reads this, codes, refresh
    {
      Server(clients, jwk, states, codes.entries, refresh.entries, tokens)
    }

    constructor ()
      ensures State() == Server(map[], None, map[], map[], map[], map[])
      ensures fresh(codes) && fresh(refresh)
    {
      clients, jwk, states, tokens := map[], None, map[], map[];
      codes := new MemoryStore();
      refresh := new MemoryStore();
    }

    method MintCodeAndRedirect(g: CodeGrant, code: string, now: int) returns (r: Response)
      modifies codes
      ensures State() == MintCode(old(State()), g, code, now)
      ensures r == ToClient(g.request.redirectUri, code, g.request.claudeState)
    {
      codes.StorePut(code, g, AUTH_CODE_TTL, now, now);
      return ToClient(g.request.redirectUri, code, g.request.claudeState);
    }

    /** `register_client` */
    method RegisterClient(uris: seq<string>, clientId: string) returns (e: Option<Error>)
      modifies this`clients
      ensures (State(), e) == Register(old(State()), uris, clientId)
      ensures e == Some(InvalidRequest) <==> uris == []
      ensures e == None <==> uris != [] && forall i :: 0 <= i < |uris| ==> RedirectUriAllowed(uris[i])
      ensures e == None ==> clients == old(clients)[clientId := Client(uris, false)]
      ensures e != None ==> clients == old(clients) && e.value in {InvalidRequest, InvalidRedirectUri}
    {
      if uris == [] {
        return Some(InvalidRequest);
      }
      for i := 0 to |uris|
        invariant forall k :: 0 <= k < i ==> RedirectUriAllowed(uris[k])
        invariant State() == old(State())
      {
        if !RedirectUriAllowed(uris[i]) {
          return Some(InvalidRedirectUri);
        }
      }
      clients := clients[clientId := Client(uris, false)];
      return None;
    }

    /** `authorize` */
    method HandleAuthorize(cfg: Config, p: AuthorizeParams, secret: string, now: int) returns (r: Response)
      modifies this, codes
      ensures State() == Authorize(cfg, old(State()), p, secret, now).server
      ensures r == Authorize(cfg, old(State()), p, secret, now).response
    {
      if p.responseType != "code" {
        return Refused(UnsupportedResponseType);
      }
      if !Given(p.challenge) || p.challengeMethod != Some("S256") {
        return Refused(InvalidRequest);
      }
      if !RedirectUriAllowed(p.redirectUri) {
        return Refused(InvalidRedirectUri);
      }
      if p.clientId !in clients || clients[p.clientId].deleted {
        return Refused(InvalidClient);
      }
      if p.redirectUri !in clients[p.clientId].redirectUris {
        return Refused(InvalidRedirectUri);
      }
      var request := RequestOf(cfg, p);
      if cfg.spike.Some? {
        if cfg.spike.value.None? {
          return Refused(SpikeMisconfigured);
        }
        r := MintCodeAndRedirect(CodeGrant(request, cfg.spike.value.value), secret, now);
        return;
      }
      states := states[secret := Entry(request, now + STATE_TTL)];
      return ToBridge(secret);
    }

    /** `claim`, a GETDEL: it answers exactly for a state that was stored and has not expired,
        no later claim answers again, and no other state is touched. */
    method Claim(mcpState: string, now: int) returns (r: Option<AuthRequest>)
      modifies this`states
      ensures r.Some? <==> mcpState in old(states) && now < old(states)[mcpState].expiresAt
      ensures r.Some? ==> r.value == old(states)[mcpState].value
      ensures mcpState !in states && forall later :: Peek(states, mcpState, later) == None
      ensures forall s :: s != mcpState ==>
                (s in states <==> s in old(states)) && (s in states ==> states[s] == old(states)[s])
    {
      r := Peek(states, mcpState, now);
      states := states - {mcpState};
    }

    /** `authorize_callback` */
    method HandleCallback(cfg: Config, token: string, code: string, now: int) returns (r: Response)
      modifies this, codes
      ensures State() == Callback(cfg, old(State()), token, code, now).server
      ensures r == Callback(cfg, old(State()), token, code, now).response
    {
      if jwk.None? {
        return Refused(ServerNotReady);
      }
      var verified := cfg.verify(jwk.value, token, now);
      if verified.None? {
        return Refused(InvalidGrant);
      }
      var claims := verified.value;
      if !Given(claims.mcpState) {
        return Refused(InvalidGrant);
      }
      var request := Claim(claims.mcpState.value, now);
      assert states == old(states) - {claims.mcpState.value};
      if request.None? {
        return Refused(InvalidGrant);
      }
      if !(Given(claims.tenantId) && Given(claims.userId) && Given(claims.userEmail)) {
        return Refused(InvalidGrant);
      }
      var id := Identity(claims.tenantId.value, claims.userId.value, claims.userEmail.value);
      r := MintCodeAndRedirect(CodeGrant(request.value, id), code, now);
    }

    /** `_issue_token_pair` */
    method IssueTokenPair(cfg: Config, data: TokenData, d: Draw, now: int) returns (r: Response)
      modifies this, refresh
      ensures (State(), r) == IssuePair(cfg, old(State()), data, d, now)
      ensures if d.dbOk then StandsBy(cfg, State(), r, data, now) else r == Refused(Crash) && State() == old(State())
    {
      if !d.dbOk {
        return Refused(Crash);
      }
      var refreshHash := cfg.hashBearer(d.refreshToken);
      tokens := tokens[cfg.hashBearer(d.access) := TokenRow(data, now + cfg.accessTtl, refreshHash)];
      refresh.StorePut(refreshHash, data, cfg.refreshTtl, now, now);
      return Tokens(d.access, d.refreshToken, data.scopes);
    }

    /** `_token_authorization_code` */
    method HandleCode(cfg: Config, f: TokenForm, d: Draw, now: int) returns (r: Response)
      modifies this, codes, refresh
      ensures State() == Exchange(cfg, old(State()), f, d, now).server
      ensures r == Exchange(cfg, old(State()), f, d, now).response
      ensures r.Tokens? <==> Redeemable(cfg, old(State()), f, now) && d.dbOk
      ensures r.Tokens? ==>
                StandsBy(cfg, State(), r, DataOf(old(State()).codes[f.code.value].value), now)
    {
      ExchangeOutcome(cfg, State(), f, d, now);
      if !(Given(f.code) && Given(f.verifier) && Given(f.clientId)) {
        return Refused(InvalidRequest);
      }
      var found := codes.StorePop(f.code.value, now);
      if found.None? {
        return Refused(InvalidGrant);
      }
      var g := found.value;
      if g.request.clientId != f.clientId.value {
        return Refused(InvalidGrant);
      }
      if Given(f.redirectUri) && g.request.redirectUri != f.redirectUri.value {
        return Refused(InvalidGrant);
      }
      if !Base64Url.IsAscii(g.request.challenge) {
        return Refused(Crash);
      }
      if Challenge(cfg, f.verifier.value) != g.request.challenge {
        return Refused(InvalidGrant);
      }
      r := IssueTokenPair(cfg, DataOf(g), d, now);
    }

    /** `_token_refresh` */
    method HandleRefresh(cfg: Config, f: TokenForm, d: Draw, now: int) returns (r: Response)
      modifies this, refresh
      ensures State() == Refresh(cfg, old(State()), f, d, now).server
      ensures r == Refresh(cfg, old(State()), f, d, now).response
      ensures r.Tokens? <==> Renewable(cfg, old(State()), f, now) && d.dbOk
      ensures r.Tokens? ==>
                StandsBy(cfg, State(), r, old(State()).refresh[cfg.hashBearer(f.refreshToken.value)].value, now)
    {
      RefreshOutcome(cfg, State(), f, d, now);
      if !(Given(f.refreshToken) && Given(f.clientId)) {
        return Refused(InvalidRequest);
      }
      var found := refresh.StorePop(cfg.hashBearer(f.refreshToken.value), now);
      if found.None? || found.value.clientId != f.clientId.value {
        return Refused(InvalidGrant);
      }
      r := IssueTokenPair(cfg, found.value, d, now);
    }
  }
}
