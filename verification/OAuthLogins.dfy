/**
 What a login gets for its trouble: in every run, whatever else the server does in
 between, the honest three requests end in a pair of tokens, and both tokens of any pair
 stay good until they are presented, revoked or expired.
 */
module OAuthLogins {
  import opened Wrappers
  import BridgeKeys
  import ExpiringStore
  import opened OAuth
  import opened OAuthRuns
  import TokenVerifier

  // ---- What steps leave alone ----

  /** Presenting a state, a code or a refresh token uses it up, whatever else is wrong with the
      call. */
  predicate Presents(cfg: Config, sv: Server, a: Action, k: string) {
    match a
    case Return(token, _, now) =>
      && sv.jwk.Some? && cfg.verify(sv.jwk.value, token, now).Some?
      && cfg.verify(sv.jwk.value, token, now).value.mcpState == Some(k)
    case Redeem(f, _, _) => f.code == Some(k)
    case Renew(f, _, _) => f.refreshToken.Some? && cfg.hashBearer(f.refreshToken.value) == k
    case _ => false
  }

  /** An action whose clock reading, if it makes one, is before `limit`. */
  predicate IsBefore(a: Action, limit: int) {
    match a
    case Ask(_, _, now) => now < limit
    case Return(_, _, now) => now < limit
    case Redeem(_, _, now) => now < limit
    case Renew(_, _, now) => now < limit
    case _ => true
  }

  /** From step `from` up to step `until` nobody presents the name, and the clock stays before `limit`. */
  ghost predicate LeftAlone(cfg: Config, actions: seq<Action>, from: nat, until: nat, k: string, limit: int)
    requires until <= |actions|
  {
    forall m :: from <= m < until ==>
      !Presents(cfg, Run(cfg, actions[..m]).sv, actions[m], k) && IsBefore(actions[m], limit)
  }

  /** What is kept under a name until `limit` or later is still kept, unchanged. */
  ghost predicate Kept(sv: Server, sv': Server, k: string, limit: int) {
    && (k in sv.states ==> k in sv'.states && sv'.states[k] == sv.states[k])
    && (k in sv.codes && limit <= sv.codes[k].expiresAt ==> k in sv'.codes && sv'.codes[k] == sv.codes[k])
    && (k in sv.refresh && limit <= sv.refresh[k].expiresAt ==> k in sv'.refresh && sv'.refresh[k] == sv.refresh[k])
  }

  lemma AuthorizeKeeps(cfg: Config, sv: Server, p: AuthorizeParams, secret: string, now: int, k: string, limit: int)
    requires k != secret && now < limit
    ensures Kept(sv, Authorize(cfg, sv, p, secret, now).server, k, limit)
  {
  }

  lemma CallbackKeeps(cfg: Config, sv: Server, token: string, code: string, now: int, k: string, limit: int)
    requires !Presents(cfg, sv, Return(token, code, now), k) && k != code && now < limit
    ensures Kept(sv, Callback(cfg, sv, token, code, now).server, k, limit)
  {
  }

  lemma ExchangeKeeps(cfg: Config, sv: Server, f: TokenForm, d: Draw, now: int, k: string, limit: int)
    requires f.code != Some(k) && k != cfg.hashBearer(d.refreshToken) && now < limit
    ensures Kept(sv, Exchange(cfg, sv, f, d, now).server, k, limit)
  {
  }

  lemma RefreshKeeps(cfg: Config, sv: Server, f: TokenForm, d: Draw, now: int, k: string, limit: int)
    requires f.refreshToken.Some? ==> cfg.hashBearer(f.refreshToken.value) != k
    requires k != cfg.hashBearer(d.refreshToken) && now < limit
    ensures Kept(sv, Refresh(cfg, sv, f, d, now).server, k, limit)
  {
  }

  lemma PerformKeeps(cfg: Config, sv: Server, a: Action, k: string, limit: int)
    requires !Presents(cfg, sv, a, k) && k !in Drawn(cfg, a) && IsBefore(a, limit)
    ensures Kept(sv, Perform(cfg, sv, a).server, k, limit)
  {
    match a
    case Ask(p, secret, now) => AuthorizeKeeps(cfg, sv, p, secret, now, k, limit);
    case Return(token, code, now) => CallbackKeeps(cfg, sv, token, code, now, k, limit);
    case Redeem(f, d, now) => ExchangeKeeps(cfg, sv, f, d, now, k, limit);
    case Renew(f, d, now) => RefreshKeeps(cfg, sv, f, d, now, k, limit);
    case _ =>
  }

  lemma StepKeeps(cfg: Config, w: World, a: Action, k: string, limit: int)
    requires k in w.names && !Presents(cfg, w.sv, a, k) && IsBefore(a, limit)
    ensures Kept(w.sv, Step(cfg, w, a).sv, k, limit) && k in Step(cfg, w, a).names
  {
    if Fresh(cfg, w, a) {
      PerformKeeps(cfg, w.sv, a, k, limit);
    }
  }

  lemma {:induction false} RunKeeps(cfg: Config, actions: seq<Action>, n: nat, until: nat, k: string, limit: int)
    requires n <= until <= |actions| && k in Run(cfg, actions[..n]).names && LeftAlone(cfg, actions, n, until, k, limit)
    ensures Kept(Run(cfg, actions[..n]).sv, Run(cfg, actions[..until]).sv, k, limit)
    ensures k in Run(cfg, actions[..until]).names
    decreases until
  {
    if n < until {
      RunKeeps(cfg, actions, n, until - 1, k, limit);
      RunThrough(cfg, actions, until - 1);
      StepKeeps(cfg, Run(cfg, actions[..until - 1]), actions[until - 1], k, limit);
    }
  }

  lemma StepKeepsRow(cfg: Config, w: World, a: Action, h: string)
    requires h in w.sv.tokens && h in w.names
    ensures var w' := Step(cfg, w, a);
            h in w'.names && h in w'.sv.tokens && w'.sv.tokens[h] == w.sv.tokens[h]
  {
  }

  /** A token's row never changes again. */
  lemma {:induction false} RunKeepsRow(cfg: Config, actions: seq<Action>, n: nat, until: nat, h: string)
    requires n <= until <= |actions| && h in Run(cfg, actions[..n]).sv.tokens && h in Run(cfg, actions[..n]).names
    ensures var w := Run(cfg, actions[..until]);
            h in w.names && h in w.sv.tokens && w.sv.tokens[h] == Run(cfg, actions[..n]).sv.tokens[h]
    decreases until
  {
    if n < until {
      RunKeepsRow(cfg, actions, n, until - 1, h);
      RunThrough(cfg, actions, until - 1);
      StepKeepsRow(cfg, Run(cfg, actions[..until - 1]), actions[until - 1], h);
    }
  }

  lemma RunThrough(cfg: Config, actions: seq<Action>, n: nat)
    requires n < |actions|
    ensures Run(cfg, actions[..n + 1]) == Step(cfg, Run(cfg, actions[..n]), actions[n])
  {
    assert actions[..n + 1][..n] == actions[..n];
  }

  lemma StepKeepsRetired(cfg: Config, w: World, a: Action, id: string)
    requires w.sv.clients.Keys <= w.names && id in w.sv.clients && w.sv.clients[id].deleted
    ensures var w' := Step(cfg, w, a);
            id in w'.sv.clients && w'.sv.clients[id].deleted
  {
  }

  /** A retired client never gets past `/authorize` again. */
  lemma {:induction false} RetiredForGood(cfg: Config, actions: seq<Action>, n: nat, id: string)
    requires n < |actions| && actions[n] == RetireClient(id) && id in Run(cfg, actions[..n]).sv.clients
    ensures var sv := Run(cfg, actions).sv;
            && id in sv.clients && sv.clients[id].deleted
            && forall p: AuthorizeParams :: p.clientId == id ==> !Acceptable(sv, p)
  {
    var init := actions[..|actions| - 1];
    if n < |init| {
      assert init[..n] == actions[..n];
      RetiredForGood(cfg, init, n, id);
      RunKeepsInv(cfg, init);
      StepKeepsRetired(cfg, Run(cfg, init), actions[|actions| - 1], id);
    } else {
      assert init == actions[..n];
    }
  }

  // ---- What a pair is good for ----

  /** What step `n` answers. */
  function Answer(cfg: Config, actions: seq<Action>, n: nat): Response
    requires n < |actions|
  {
    Perform(cfg, Run(cfg, actions[..n]).sv, actions[n]).response
  }

  predicate DrawsFresh(cfg: Config, actions: seq<Action>, n: nat)
    requires n < |actions|
  {
    Fresh(cfg, Run(cfg, actions[..n]), actions[n])
  }

  /** Step `n` issued this pair, for this data, at this time. */
  predicate Issued(cfg: Config, actions: seq<Action>, n: nat, data: TokenData, now: int)
    requires n < |actions|
  {
    && (actions[n].Redeem? || actions[n].Renew?) && DrawsFresh(cfg, actions, n)
    && Answer(cfg, actions, n).Tokens?
    && StandsBy(cfg, Run(cfg, actions[..n + 1]).sv, Answer(cfg, actions, n), data, now)
  }

  /** Every pair that is answered, is issued: for what its code or its predecessor was granted. */
  lemma AnsweredIsIssued(cfg: Config, actions: seq<Action>, n: nat)
    requires n < |actions| && (actions[n].Redeem? || actions[n].Renew?) && DrawsFresh(cfg, actions, n)
    requires Answer(cfg, actions, n).Tokens?
    ensures var sv, a := Run(cfg, actions[..n]).sv, actions[n];
            Issued(cfg, actions, n,
                   if a.Redeem? then DataOf(sv.codes[a.form.code.value].value)
                   else sv.refresh[cfg.hashBearer(a.form.refreshToken.value)].value, a.now)
  {
    var w, a := Run(cfg, actions[..n]), actions[n];
    RunThrough(cfg, actions, n);
    if a.Redeem? {
      ExchangeOutcome(cfg, w.sv, a.form, a.draw, a.now);
    } else {
      RefreshOutcome(cfg, w.sv, a.form, a.draw, a.now);
    }
  }

  /** Whatever the run does next, the access token of a pair is accepted exactly until it expires or
      is revoked, and only for this resource; it acts for the client and identity it was issued for. */
  lemma AccessTokenIsAccepted(cfg: Config, actions: seq<Action>, n: nat, data: TokenData, at: int,
                              revoked: set<string>, now: int)
    requires n < |actions| && Issued(cfg, actions, n, data, at)
    ensures var token := Answer(cfg, actions, n).access;
            var r := TokenVerifier.Lookup(cfg, TokenVerifier.Table(Run(cfg, actions).sv.tokens, revoked), token, now);
            && (r.Some? <==>
                  && token != "" && cfg.hashBearer(token) !in revoked && now < at + cfg.accessTtl
                  && TokenVerifier.RStrip(data.resource) == TokenVerifier.RStrip(cfg.resourceIndicator))
            && (r.Some? ==>
                  && r.value.token == token && r.value.clientId == data.clientId
                  && r.value.expiresAt == at + cfg.accessTtl && r.value.resource == data.resource
                  && (data.scopes != [] ==> data.scopes <= r.value.scopes && |r.value.scopes| == |data.scopes| + 3)
                  && TokenVerifier.IdentityOf(r.value.scopes) == NonEmpty(data.identity))
  {
    var h := cfg.hashBearer(Answer(cfg, actions, n).access);
    DrawnIsAnswered(cfg, actions, n);
    RunKeepsRow(cfg, actions, n + 1, |actions|, h);
    assert actions[..|actions|] == actions;
    TokenVerifier.IdentityRoundTrip(data);
  }

  function NonEmpty(id: Identity): Option<Identity> {
    if id.tenantId == "" || id.userId == "" || id.userEmail == "" then None else Some(id)
  }

  /** The tokens of a pair are the ones drawn for it, so their hashes are known from then on. */
  lemma DrawnIsAnswered(cfg: Config, actions: seq<Action>, n: nat)
    requires n < |actions| && (actions[n].Redeem? || actions[n].Renew?) && DrawsFresh(cfg, actions, n)
    requires Answer(cfg, actions, n).Tokens?
    ensures var r, names := Answer(cfg, actions, n), Run(cfg, actions[..n + 1]).names;
            cfg.hashBearer(r.access) in names && cfg.hashBearer(r.refreshToken) in names
  {
    var w, a := Run(cfg, actions[..n]), actions[n];
    RunThrough(cfg, actions, n);
    if a.Redeem? {
      ExchangeOutcome(cfg, w.sv, a.form, a.draw, a.now);
    } else {
      RefreshOutcome(cfg, w.sv, a.form, a.draw, a.now);
    }
  }

  /** Until somebody presents it, the refresh token of a pair is worth a new pair for the same data,
      exactly to the client it was issued to and before it expires. */
  lemma RefreshTokenRenews(cfg: Config, actions: seq<Action>, n: nat, data: TokenData, at: int, f: TokenForm,
                           d: Draw, now: int)
    requires n < |actions| && Issued(cfg, actions, n, data, at)
    requires f.refreshToken == Some(Answer(cfg, actions, n).refreshToken) && Given(f.refreshToken) && Given(f.clientId)
    requires LeftAlone(cfg, actions, n + 1, |actions|, cfg.hashBearer(f.refreshToken.value), at + cfg.refreshTtl)
    ensures var o := Refresh(cfg, Run(cfg, actions).sv, f, d, now);
            && (o.response.Tokens? <==>
                  f.clientId.value == data.clientId && now < at + cfg.refreshTtl && d.dbOk)
            && (o.response.Tokens? ==> StandsBy(cfg, o.server, o.response, data, now))
  {
    DrawnIsAnswered(cfg, actions, n);
    RunKeeps(cfg, actions, n + 1, |actions|, cfg.hashBearer(f.refreshToken.value), at + cfg.refreshTtl);
    assert actions[..|actions|] == actions;
    RefreshOutcome(cfg, Run(cfg, actions).sv, f, d, now);
  }

  // ---- An honest login ----

  /** Step `a` asks, with a challenge made from the verifier. */
  predicate Asks(cfg: Config, actions: seq<Action>, a: nat, verifier: string)
    requires a < |actions|
  {
    && actions[a].Ask? && DrawsFresh(cfg, actions, a) && actions[a].secret != ""
    && Acceptable(Run(cfg, actions[..a]).sv, actions[a].params)
    && actions[a].params.challenge == Some(Challenge(cfg, verifier))
  }

  /** Step `b` brings back the state of step `a` in time, with this identity in a verified JWT. */
  predicate Returns(cfg: Config, actions: seq<Action>, a: nat, b: nat, id: Identity)
    requires a < b < |actions| && actions[a].Ask?
  {
    var jwk := Run(cfg, actions[..b]).sv.jwk;
    && actions[b].Return? && DrawsFresh(cfg, actions, b) && actions[b].code != ""
    && jwk.Some? && NonEmpty(id) == Some(id)
    && cfg.verify(jwk.value, actions[b].token, actions[b].now)
       == Some(Claims(Some(actions[a].secret), Some(id.tenantId), Some(id.userId), Some(id.userEmail)))
    && actions[b].now < actions[a].now + STATE_TTL
  }

  /** Step `c` redeems a code with a verifier, as the client of this request. */
  predicate RedeemsAs(cfg: Config, actions: seq<Action>, c: nat, code: string, p: AuthorizeParams, verifier: string)
    requires c < |actions|
  {
    && actions[c].Redeem? && DrawsFresh(cfg, actions, c) && actions[c].draw.dbOk
    && verifier != "" && p.clientId != ""
    && actions[c].form.code == Some(code) && actions[c].form.verifier == Some(verifier)
    && actions[c].form.clientId == Some(p.clientId)
    && (Given(actions[c].form.redirectUri) ==> actions[c].form.redirectUri.value == p.redirectUri)
  }

  /** The state made by step `a` still stands for what was asked. */
  lemma StateIsKept(cfg: Config, actions: seq<Action>, a: nat, b: nat, verifier: string)
    requires cfg.spike.None? && a < b <= |actions| && Asks(cfg, actions, a, verifier)
    requires LeftAlone(cfg, actions, a + 1, b, actions[a].secret, actions[a].now + STATE_TTL)
    ensures var states, k := Run(cfg, actions[..b]).sv.states, actions[a].secret;
            && k in states && states[k].expiresAt == actions[a].now + STATE_TTL
            && OAuth.Keeps(cfg, states[k].value, actions[a].params)
  {
    var k := actions[a].secret;
    RunThrough(cfg, actions, a);
    AuthorizeOutcome(cfg, Run(cfg, actions[..a]).sv, actions[a].params, k, actions[a].now);
    RunKeeps(cfg, actions, a + 1, b, k, actions[a].now + STATE_TTL);
  }

  /** A code that stands for what step `a` asked, in the name of this identity. */
  predicate CodeFor(cfg: Config, sv: Server, k: string, p: AuthorizeParams, id: Identity, expires: int) {
    && k in sv.codes && sv.codes[k].expiresAt == expires
    && OAuth.Keeps(cfg, sv.codes[k].value.request, p) && sv.codes[k].value.identity == id
  }

  lemma CodeIsMade(cfg: Config, w: World, token: string, code: string, now: int, state: string, id: Identity)
    requires Fresh(cfg, w, Return(token, code, now)) && w.sv.jwk.Some? && NonEmpty(id) == Some(id)
    requires cfg.verify(w.sv.jwk.value, token, now)
          == Some(Claims(Some(state), Some(id.tenantId), Some(id.userId), Some(id.userEmail)))
    requires state != "" && state in w.sv.states && now < w.sv.states[state].expiresAt
    ensures var w' := Step(cfg, w, Return(token, code, now));
            && code in w'.names && code in w'.sv.codes
            && w'.sv.codes[code] == ExpiringStore.Entry(CodeGrant(w.sv.states[state].value, id), now + AUTH_CODE_TTL)
  {
    CallbackOutcome(cfg, w.sv, token, code, now);
  }

  lemma ReturnMints(cfg: Config, actions: seq<Action>, a: nat, b: nat, verifier: string, id: Identity)
    requires cfg.spike.None? && a < b < |actions|
    requires Asks(cfg, actions, a, verifier) && Returns(cfg, actions, a, b, id)
    requires LeftAlone(cfg, actions, a + 1, b, actions[a].secret, actions[a].now + STATE_TTL)
    ensures var w := Run(cfg, actions[..b + 1]);
            && CodeFor(cfg, w.sv, actions[b].code, actions[a].params, id, actions[b].now + AUTH_CODE_TTL)
            && actions[b].code in w.names
  {
    StateIsKept(cfg, actions, a, b, verifier);
    RunThrough(cfg, actions, b);
    CodeIsMade(cfg, Run(cfg, actions[..b]), actions[b].token, actions[b].code, actions[b].now, actions[a].secret, id);
  }

  lemma CodeIsKept(cfg: Config, actions: seq<Action>, n: nat, c: nat, k: string, p: AuthorizeParams, id: Identity,
                   expires: int)
    requires n <= c <= |actions| && CodeFor(cfg, Run(cfg, actions[..n]).sv, k, p, id, expires)
    requires k in Run(cfg, actions[..n]).names && LeftAlone(cfg, actions, n, c, k, expires)
    ensures CodeFor(cfg, Run(cfg, actions[..c]).sv, k, p, id, expires)
  {
    RunKeeps(cfg, actions, n, c, k, expires);
  }

  /** What was asked for, or the defaults. */
  predicate DataFor(cfg: Config, data: TokenData, p: AuthorizeParams, id: Identity) {
    && data.clientId == p.clientId && data.identity == id
    && (if Given(p.resource) then Some(data.resource) == p.resource else data.resource == cfg.resourceIndicator)
    && (if Given(p.scope) then data.scopes == [p.scope.value] else data.scopes == ["log_interaction"])
  }

  lemma CodeIsRedeemed(cfg: Config, actions: seq<Action>, c: nat, code: string, p: AuthorizeParams, id: Identity,
                       expires: int, verifier: string)
    returns (data: TokenData)
    requires c < |actions| && RedeemsAs(cfg, actions, c, code, p, verifier)
    requires CodeFor(cfg, Run(cfg, actions[..c]).sv, code, p, id, expires)
    requires p.challenge == Some(Challenge(cfg, verifier)) && code != "" && actions[c].now < expires
    ensures Issued(cfg, actions, c, data, actions[c].now) && DataFor(cfg, data, p, id)
    ensures Answer(cfg, actions, c) == Tokens(actions[c].draw.access, actions[c].draw.refreshToken, data.scopes)
  {
    var w := Run(cfg, actions[..c]);
    ExchangeOutcome(cfg, w.sv, actions[c].form, actions[c].draw, actions[c].now);
    AnsweredIsIssued(cfg, actions, c);
    data := DataOf(w.sv.codes[code].value);
  }

  /** In any run, three honest requests in time end in the pair drawn for them, whatever happens in
      between, provided nobody else presents the state or the code: a pair for the client that
      asked, the identity of the JWT, and the resource and scope asked for (or the defaults). */
  lemma LoginCompletes(cfg: Config, actions: seq<Action>, a: nat, b: nat, c: nat, verifier: string, id: Identity)
    returns (data: TokenData)
    requires cfg.spike.None? && a < b < c < |actions|
    requires Asks(cfg, actions, a, verifier) && Returns(cfg, actions, a, b, id)
    requires RedeemsAs(cfg, actions, c, actions[b].code, actions[a].params, verifier)
    requires actions[c].now < actions[b].now + AUTH_CODE_TTL
    requires LeftAlone(cfg, actions, a + 1, b, actions[a].secret, actions[a].now + STATE_TTL)
    requires LeftAlone(cfg, actions, b + 1, c, actions[b].code, actions[b].now + AUTH_CODE_TTL)
    ensures Issued(cfg, actions, c, data, actions[c].now) && DataFor(cfg, data, actions[a].params, id)
    ensures Answer(cfg, actions, c) == Tokens(actions[c].draw.access, actions[c].draw.refreshToken, data.scopes)
  {
    var p, expires := actions[a].params, actions[b].now + AUTH_CODE_TTL;
    ReturnMints(cfg, actions, a, b, verifier, id);
    CodeIsKept(cfg, actions, b + 1, c, actions[b].code, p, id, expires);
    data := CodeIsRedeemed(cfg, actions, c, actions[b].code, p, id, expires, verifier);
  }

  // ---- A first login ----

  /** Everything five requests to a new server need: a client registered for the URI it then asks
      with, a key, a JWT verified under it for the state, and the verifier of the challenge. */
  datatype Visit = Visit(uri: string, jwk: BridgeKeys.Jwk, params: AuthorizeParams, state: string, token: string,
                         code: string, verifier: string, identity: Identity, draw: Draw, at: int)

  predicate InOrder(cfg: Config, v: Visit) {
    var claims := Claims(Some(v.state), Some(v.identity.tenantId), Some(v.identity.userId), Some(v.identity.userEmail));
    && cfg.spike.None? && cfg.accessTtl > 0
    && RedirectUriAllowed(v.uri) && v.params.redirectUri == v.uri && v.params.responseType == "code"
    && v.params.challenge == Some(Challenge(cfg, v.verifier)) && v.params.challengeMethod == Some("S256")
    && !Given(v.params.resource)
    && cfg.verify(v.jwk, v.token, v.at) == Some(claims)
    && NonEmpty(v.identity) == Some(v.identity) && v.draw.dbOk && v.draw.access != ""
    && "" !in {v.params.clientId, v.state, v.code, v.verifier}
  }

  /** The five names drawn are five names. */
  predicate AllNew(cfg: Config, v: Visit) {
    && v.state != v.params.clientId && v.code !in {v.params.clientId, v.state}
    && cfg.hashBearer(v.draw.access) !in {v.params.clientId, v.state, v.code}
    && cfg.hashBearer(v.draw.refreshToken) !in {v.params.clientId, v.state, v.code, cfg.hashBearer(v.draw.access)}
  }

  function Prepared(v: Visit): seq<Action> {
    [RegisterClient([v.uri], v.params.clientId), LoadJwk(v.jwk)]
  }

  function Steps(v: Visit): seq<Action> {
    Prepared(v)
    + [Ask(v.params, v.state, v.at), Return(v.token, v.code, v.at),
       Redeem(TokenForm(Some(v.code), Some(v.verifier), Some(v.params.clientId), Some(v.uri), None), v.draw, v.at)]
  }

  lemma PreparedServer(cfg: Config, v: Visit)
    requires InOrder(cfg, v)
    ensures var clients := map[v.params.clientId := Client([v.uri], false)];
            Run(cfg, Prepared(v))
            == World(START.sv.(clients := clients, jwk := Some(v.jwk)), [], {v.params.clientId})
  {
    var steps := Prepared(v);
    assert steps[..0] == [] && steps[..2] == steps;
    RunThrough(cfg, steps, 0);
    RunThrough(cfg, steps, 1);
    assert Register(START.sv, [v.uri], v.params.clientId).1 == None;
  }

  lemma FirstAcceptable(cfg: Config, v: Visit)
    requires InOrder(cfg, v)
    ensures Acceptable(Run(cfg, Prepared(v)).sv, v.params)
  {
    PreparedServer(cfg, v);
    PkceMatches(cfg, v.verifier, cfg.sha256([]));
    assert v.uri in [v.uri];
  }

  lemma StepsAre(v: Visit)
    ensures |Steps(v)| == 5 && Steps(v)[..2] == Prepared(v)
    ensures Steps(v)[2] == Ask(v.params, v.state, v.at) && Steps(v)[3] == Return(v.token, v.code, v.at)
  {
  }

  lemma AskAddsName(cfg: Config, w: World, p: AuthorizeParams, secret: string, now: int)
    requires Fresh(cfg, w, Ask(p, secret, now))
    ensures var w' := Step(cfg, w, Ask(p, secret, now));
            w'.names == w.names + {secret} && w'.sv.jwk == w.sv.jwk
  {
  }

  lemma AsksAfter(cfg: Config, steps: seq<Action>, w: World, v: Visit)
    requires |steps| > 2 && steps[2] == Ask(v.params, v.state, v.at) && Run(cfg, steps[..2]) == w
    requires w.names == {v.params.clientId} && Acceptable(w.sv, v.params) && v.state !in {"", v.params.clientId}
    requires v.params.challenge == Some(Challenge(cfg, v.verifier))
    ensures Asks(cfg, steps, 2, v.verifier)
  {
    assert DrawsFresh(cfg, steps, 2);
  }

  lemma FirstAsks(cfg: Config, v: Visit)
    requires InOrder(cfg, v) && AllNew(cfg, v)
    ensures Asks(cfg, Steps(v), 2, v.verifier)
  {
    PreparedServer(cfg, v);
    FirstAcceptable(cfg, v);
    StepsAre(v);
    AsksAfter(cfg, Steps(v), Run(cfg, Prepared(v)), v);
  }

  lemma FirstAsked(cfg: Config, v: Visit)
    requires InOrder(cfg, v) && AllNew(cfg, v)
    ensures var w := Run(cfg, Steps(v)[..3]);
            w.names == {v.params.clientId, v.state} && w.sv.jwk == Some(v.jwk)
  {
    PreparedServer(cfg, v);
    assert Steps(v)[..2] == Prepared(v);
    RunThrough(cfg, Steps(v), 2);
    AskAddsName(cfg, Run(cfg, Prepared(v)), v.params, v.state, v.at);
  }

  lemma FirstReturns(cfg: Config, v: Visit)
    requires InOrder(cfg, v) && AllNew(cfg, v)
    ensures Returns(cfg, Steps(v), 2, 3, v.identity)
    ensures Run(cfg, Steps(v)[..4]).names == {v.params.clientId, v.state, v.code}
  {
    FirstAsked(cfg, v);
    RunThrough(cfg, Steps(v), 3);
  }

  lemma FirstRedeems(cfg: Config, v: Visit)
    requires InOrder(cfg, v) && AllNew(cfg, v)
    ensures RedeemsAs(cfg, Steps(v), 4, v.code, v.params, v.verifier)
  {
    FirstReturns(cfg, v);
  }

  /** On a new server it works: the login the theorem above speaks of happens, and its access token is
      accepted as the identity of the JWT. */
  lemma FirstLogin(cfg: Config, v: Visit)
    requires InOrder(cfg, v) && AllNew(cfg, v)
    ensures var sv := Run(cfg, Steps(v)).sv;
            var r := TokenVerifier.Lookup(cfg, TokenVerifier.Table(sv.tokens, {}), v.draw.access, v.at);
            r.Some? && r.value.clientId == v.params.clientId
            && TokenVerifier.IdentityOf(r.value.scopes) == Some(v.identity)
  {
    var steps := Steps(v);
    PreparedServer(cfg, v);
    assert steps[..2] == Prepared(v) && |steps| == 5;
    FirstAsks(cfg, v);
    FirstReturns(cfg, v);
    FirstRedeems(cfg, v);
    var data := LoginCompletes(cfg, steps, 2, 3, 4, v.verifier, v.identity);
    AccessTokenIsAccepted(cfg, steps, 4, data, v.at, {}, v.at);
  }
}
