/**
 Whole runs of the authorization server.  Each login (one `/authorize` call) passes
 through one state, one code and a chain of refresh tokens; at most one of them is
 ever alive, and every access token is traced back to its login.
 */
module OAuthRuns {
  import opened Wrappers
  import opened ExpiringStore
  import opened OAuth
  import BridgeKeys

  /** `names`: the secrets drawn so far, as they are written down (tokens as their hash). */
  datatype World = World(sv: Server, log: seq<Event>, names: set<string>)

  datatype Action =
    | RegisterClient(uris: seq<string>, clientId: string)
    | RetireClient(clientId: string)
    | LoadJwk(jwk: BridgeKeys.Jwk)
    | Ask(params: AuthorizeParams, secret: string, now: int)
    | Return(token: string, code: string, now: int)
    | Redeem(form: TokenForm, draw: Draw, now: int)
    | Renew(form: TokenForm, draw: Draw, now: int)

  function Drawn(cfg: Config, a: Action): set<string> {
    match a
    case RegisterClient(_, clientId) => {clientId}
    case RetireClient(_) => {}
    case LoadJwk(_) => {}
    case Ask(_, secret, _) => {secret}
    case Return(_, code, _) => {code}
    case Redeem(_, d, _) => {cfg.hashBearer(d.access), cfg.hashBearer(d.refreshToken)}
    case Renew(_, d, _) => {cfg.hashBearer(d.access), cfg.hashBearer(d.refreshToken)}
  }

  /** Random secrets are new, and a pair's two tokens differ. */
  predicate Fresh(cfg: Config, w: World, a: Action) {
    && Drawn(cfg, a) !! w.names
    && (a.Redeem? || a.Renew? ==> cfg.hashBearer(a.draw.access) != cfg.hashBearer(a.draw.refreshToken))
  }

  function Perform(cfg: Config, sv: Server, a: Action): Outcome {
    match a
    case RegisterClient(uris, clientId) => Outcome(Register(sv, uris, clientId).0, Done, [])
    case RetireClient(id) =>
      if id in sv.clients then
        Outcome(sv.(clients := sv.clients[id := sv.clients[id].(deleted := true)]), Done, [])
      else Outcome(sv, Done, [])
    case LoadJwk(jwk) => Outcome(sv.(jwk := Some(jwk)), Done, [])
    case Ask(p, secret, now) => Authorize(cfg, sv, p, secret, now)
    case Return(token, code, now) => Callback(cfg, sv, token, code, now)
    case Redeem(f, d, now) => Exchange(cfg, sv, f, d, now)
    case Renew(f, d, now) => Refresh(cfg, sv, f, d, now)
  }

  function Step(cfg: Config, w: World, a: Action): World {
    if !Fresh(cfg, w, a) then w
    else
      var o := Perform(cfg, w.sv, a);
      World(o.server, w.log + o.events, w.names + Drawn(cfg, a))
  }

  const START := World(Server(map[], None, map[], map[], map[], map[]), [], {})

  function Run(cfg: Config, actions: seq<Action>): World {
    if actions == [] then START
    else Step(cfg, Run(cfg, actions[..|actions| - 1]), actions[|actions| - 1])
  }

  // ---- Histories ----

  /** The state, code or refresh token an event brought to life. */
  function Produces(e: Event): string {
    match e
    case Authorized(st, _, _) => st
    case Called(_, _, _, _, code, _) => code
    case Spiked(code, _, _) => code
    case Exchanged(_, _, _, refresh, _, _) => refresh
    case Rotated(_, _, refresh, _, _) => refresh
  }

  /** The one it used up. */
  function Consumes(e: Event): Option<string> {
    match e
    case Authorized(_, _, _) => None
    case Called(_, _, _, st, _, _) => Some(st)
    case Spiked(_, _, _) => None
    case Exchanged(code, _, _, _, _, _) => Some(code)
    case Rotated(spent, _, _, _, _) => Some(spent)
  }

  /** The login a state, code or refresh token belongs to: the first of its chain. */
  function Login(log: seq<Event>, name: string): Option<string> {
    if log == [] then None
    else
      var init, e := log[..|log| - 1], log[|log| - 1];
      if Produces(e) != name then Login(init, name)
      else match Consumes(e) case None => Some(name) case Some(x) => Login(init, x)
  }

  predicate Spent(log: seq<Event>, name: string) {
    exists i :: 0 <= i < |log| && Consumes(log[i]) == Some(name)
  }

  /** A code made for this grant, good until `expires`. */
  predicate Mints(e: Event, code: string, g: CodeGrant, expires: int) {
    (e.Called? || e.Spiked?) && e.newCode == code && e.grant == g && expires == e.at + AUTH_CODE_TTL
  }

  predicate Pairs(e: Event, refresh: string, data: TokenData) {
    (e.Exchanged? || e.Rotated?) && e.newRefresh == refresh && e.data == data
  }

  predicate CodeMade(log: seq<Event>, code: string, g: CodeGrant, expires: int) {
    exists i :: 0 <= i < |log| && Mints(log[i], code, g, expires)
  }

  /** A pair made at a time from which its refresh token is good until `expires`. */
  predicate PairMade(cfg: Config, log: seq<Event>, refresh: string, data: TokenData, expires: int) {
    exists i :: 0 <= i < |log| && Pairs(log[i], refresh, data) && expires == log[i].at + cfg.refreshTtl
  }

  predicate AccessMade(cfg: Config, log: seq<Event>, access: string, row: TokenRow) {
    exists i :: 0 <= i < |log| && Grants(cfg, log[i], access, row)
  }

  predicate Grants(cfg: Config, e: Event, access: string, row: TokenRow) {
    Pairs(e, row.refreshHash, row.data) && e.access == access && row.expiresAt == e.at + cfg.accessTtl
  }

  predicate VerifiedFor(cfg: Config, e: Event)
    requires e.Called?
  {
    match cfg.verify(e.jwk, e.token, e.at)
    case None => false
    case Some(claims) => claims.mcpState == Some(e.spentState) && IdentityOf(claims) == Some(e.grant.identity)
  }

  /** The call to `/authorize` a callback answers, less than ten minutes old. */
  predicate Answers(e: Event, ask: Event)
    requires e.Called?
  {
    ask.Authorized? && ask.mcpState == e.spentState && ask.request == e.grant.request && e.at < ask.at + STATE_TTL
  }

  /** Why an event could happen, in terms of what came before it. */
  predicate Justified(cfg: Config, log: seq<Event>, e: Event) {
    match e
    case Authorized(_, _, _) => cfg.spike.None?
    case Called(_, _, _, _, _, _) => VerifiedFor(cfg, e) && exists i :: 0 <= i < |log| && Answers(e, log[i])
    case Spiked(_, g, _) => cfg.spike == Some(Some(g.identity))
    case Exchanged(_, _, _, _, _, _) => exists i :: 0 <= i < |log| && Redeems(cfg, e, log[i])
    case Rotated(_, _, _, _, _) => exists i :: 0 <= i < |log| && Renews(cfg, e, log[i])
  }

  /** The code an exchange redeems, in time and with a verifier that meets its challenge. */
  predicate Redeems(cfg: Config, e: Event, mint: Event)
    requires e.Exchanged?
  {
    (mint.Called? || mint.Spiked?) && mint.newCode == e.spentCode && e.at < mint.at + AUTH_CODE_TTL
    && Challenge(cfg, e.verifier) == mint.grant.request.challenge && e.data == DataOf(mint.grant)
  }

  /** The pair whose refresh token a rotation uses up, in time. */
  predicate Renews(cfg: Config, e: Event, pair: Event)
    requires e.Rotated?
  {
    Pairs(pair, e.spentRefresh, e.data) && e.at < pair.at + cfg.refreshTtl
  }

  // ---- The invariant ----

  function Alive(sv: Server): set<string> {
    sv.states.Keys + sv.codes.Keys + sv.refresh.Keys
  }

  ghost predicate LegalLog(cfg: Config, log: seq<Event>) {
    forall i :: 0 <= i < |log| ==> Justified(cfg, log[..i], log[i])
  }

  ghost predicate EachOnce(log: seq<Event>) {
    forall i, j :: 0 <= i < j < |log| ==>
      Produces(log[i]) != Produces(log[j]) && (Consumes(log[i]).Some? ==> Consumes(log[i]) != Consumes(log[j]))
  }

  ghost predicate NamesKnown(w: World) {
    && (forall i :: 0 <= i < |w.log| ==>
          Produces(w.log[i]) in w.names && (Consumes(w.log[i]).Some? ==> Consumes(w.log[i]).value in w.names))
    && Alive(w.sv) <= w.names && w.sv.clients.Keys <= w.names
  }

  /** What the stores hold, and until when, is what the history says. */
  ghost predicate Held(cfg: Config, w: World) {
    && (forall k :: k in w.sv.states ==> StateMade(w.log, k, w.sv.states[k]))
    && (forall k :: k in w.sv.codes ==> CodeMade(w.log, k, w.sv.codes[k].value, w.sv.codes[k].expiresAt))
    && (forall k :: k in w.sv.refresh ==> PairMade(cfg, w.log, k, w.sv.refresh[k].value, w.sv.refresh[k].expiresAt))
    && (forall k :: k in w.sv.tokens ==> AccessMade(cfg, w.log, k, w.sv.tokens[k]))
  }

  predicate StateMade(log: seq<Event>, st: string, entry: Entry<AuthRequest>) {
    exists i :: 0 <= i < |log| && log[i] == Authorized(st, entry.value, entry.expiresAt - STATE_TTL)
  }

  ghost predicate NoneSpent(w: World) {
    forall k :: k in Alive(w.sv) ==> !Spent(w.log, k)
  }

  ghost predicate OneEach(w: World) {
    && (forall k :: k in Alive(w.sv) ==> Login(w.log, k).Some?)
    && (forall j, k :: j in Alive(w.sv) && k in Alive(w.sv) && Login(w.log, j) == Login(w.log, k) ==> j == k)
  }

  /** A request came from a registered client, for one of its redirect URIs. */
  predicate Registered(sv: Server, r: AuthRequest) {
    && RedirectUriAllowed(r.redirectUri)
    && r.clientId in sv.clients && r.redirectUri in sv.clients[r.clientId].redirectUris
  }

  ghost predicate Asked(w: World) {
    forall i :: 0 <= i < |w.log| ==>
      match w.log[i]
      case Authorized(_, r, _) => Registered(w.sv, r)
      case Called(_, _, _, _, _, _) => true
      case Spiked(_, g, _) => Registered(w.sv, g.request)
      case Exchanged(_, _, _, _, _, _) => true
      case Rotated(_, _, _, _, _) => true
  }

  ghost predicate Inv(cfg: Config, w: World) {
    LegalLog(cfg, w.log) && EachOnce(w.log) && NamesKnown(w) && Held(cfg, w) && NoneSpent(w) && OneEach(w) && Asked(w)
  }

  // ---- Keeping it ----

  lemma LoginAppend(log: seq<Event>, e: Event, name: string)
    ensures Login(log + [e], name)
         == if Produces(e) != name then Login(log, name)
            else match Consumes(e) case None => Some(name) case Some(x) => Login(log, x)
  {
    assert (log + [e])[..|log|] == log;
  }

  predicate Submap<V(==)>(s: Store<V>, t: Store<V>) {
    forall k :: k in s ==> k in t && s[k] == t[k]
  }

  /** The stores after an event: what was there, less something, plus what it made. */
  ghost predicate StoresFrom(cfg: Config, sv: Server, sv': Server, e: Event) {
    && (forall k :: k in sv'.states ==>
          (k in sv.states && sv'.states[k] == sv.states[k])
          || e == Authorized(k, sv'.states[k].value, sv'.states[k].expiresAt - STATE_TTL))
    && (forall k :: k in sv'.codes ==>
          (k in sv.codes && sv'.codes[k] == sv.codes[k]) || Mints(e, k, sv'.codes[k].value, sv'.codes[k].expiresAt))
    && (forall k :: k in sv'.refresh ==>
          (k in sv.refresh && sv'.refresh[k] == sv.refresh[k])
          || (Pairs(e, k, sv'.refresh[k].value) && sv'.refresh[k].expiresAt == e.at + cfg.refreshTtl))
    && (forall k :: k in sv'.tokens ==>
          (k in sv.tokens && sv'.tokens[k] == sv.tokens[k]) || Grants(cfg, e, k, sv'.tokens[k]))
    && sv'.clients == sv.clients
  }

  ghost predicate Only(sv: Server, sv': Server) {
    && Submap(sv'.states, sv.states) && Submap(sv'.codes, sv.codes) && Submap(sv'.refresh, sv.refresh)
    && sv'.tokens == sv.tokens
    && forall r :: Registered(sv, r) ==> Registered(sv', r)
  }

  /** A step that makes nothing keeps the invariant. */
  lemma ShrinkKeepsInv(cfg: Config, w: World, w': World)
    requires Inv(cfg, w) && Only(w.sv, w'.sv) && w'.log == w.log && w.names <= w'.names
    requires w'.sv.clients.Keys <= w'.names
    ensures Inv(cfg, w')
  {
    assert Alive(w'.sv) <= Alive(w.sv);
  }

  /** One event added to a run: fresh, justified, and paid for with a live name. */
  ghost predicate Adds(cfg: Config, w: World, w': World, e: Event) {
    && w'.log == w.log + [e]
    && w.names <= w'.names && Produces(e) in w'.names && Produces(e) !in w.names
    && Justified(cfg, w.log, e)
    && (Consumes(e).Some? ==> Consumes(e).value in Alive(w.sv) && Consumes(e).value !in Alive(w'.sv))
    && StoresFrom(cfg, w.sv, w'.sv, e)
    && (e.Authorized? ==> Registered(w.sv, e.request))
    && (e.Spiked? ==> Registered(w.sv, e.grant.request))
  }

  lemma AddsAlive(cfg: Config, w: World, w': World, e: Event)
    requires Adds(cfg, w, w', e)
    ensures Alive(w'.sv) <= Alive(w.sv) + {Produces(e)}
  {
  }

  lemma LegalLogAppend(cfg: Config, log: seq<Event>, e: Event)
    requires LegalLog(cfg, log) && Justified(cfg, log, e)
    ensures LegalLog(cfg, log + [e])
  {
    var more := log + [e];
    forall i | 0 <= i < |more| ensures Justified(cfg, more[..i], more[i]) {
      if i == |log| {
        assert more[..i] == log;
      } else {
        assert more[..i] == log[..i];
      }
    }
  }

  lemma EachOnceAppend(log: seq<Event>, e: Event)
    requires EachOnce(log)
    requires forall i :: 0 <= i < |log| ==> Produces(log[i]) != Produces(e)
    requires Consumes(e).Some? ==> !Spent(log, Consumes(e).value)
    ensures EachOnce(log + [e])
  {
  }

  lemma AddsKeepsLog(cfg: Config, w: World, w': World, e: Event)
    requires Inv(cfg, w) && Adds(cfg, w, w', e)
    ensures LegalLog(cfg, w'.log) && EachOnce(w'.log)
  {
    LegalLogAppend(cfg, w.log, e);
    EachOnceAppend(w.log, e);
  }

  lemma StateMadeStays(log: seq<Event>, e: Event, st: string, entry: Entry<AuthRequest>)
    requires StateMade(log, st, entry) || e == Authorized(st, entry.value, entry.expiresAt - STATE_TTL)
    ensures StateMade(log + [e], st, entry)
  {
    var made := Authorized(st, entry.value, entry.expiresAt - STATE_TTL);
    if e == made {
      assert (log + [e])[|log|] == made;
    } else {
      var i :| 0 <= i < |log| && log[i] == made;
      assert (log + [e])[i] == made;
    }
  }

  lemma CodeMadeStays(log: seq<Event>, e: Event, code: string, g: CodeGrant, expires: int)
    requires CodeMade(log, code, g, expires) || Mints(e, code, g, expires)
    ensures CodeMade(log + [e], code, g, expires)
  {
    if Mints(e, code, g, expires) {
      assert Mints((log + [e])[|log|], code, g, expires);
    } else {
      var i :| 0 <= i < |log| && Mints(log[i], code, g, expires);
      assert Mints((log + [e])[i], code, g, expires);
    }
  }

  lemma PairMadeStays(cfg: Config, log: seq<Event>, e: Event, refresh: string, data: TokenData, expires: int)
    requires PairMade(cfg, log, refresh, data, expires) || (Pairs(e, refresh, data) && expires == e.at + cfg.refreshTtl)
    ensures PairMade(cfg, log + [e], refresh, data, expires)
  {
    if Pairs(e, refresh, data) && expires == e.at + cfg.refreshTtl {
      assert Pairs((log + [e])[|log|], refresh, data);
    } else {
      var i :| 0 <= i < |log| && Pairs(log[i], refresh, data) && expires == log[i].at + cfg.refreshTtl;
      assert Pairs((log + [e])[i], refresh, data);
    }
  }

  lemma AccessMadeStays(cfg: Config, log: seq<Event>, e: Event, access: string, row: TokenRow)
    requires AccessMade(cfg, log, access, row) || Grants(cfg, e, access, row)
    ensures AccessMade(cfg, log + [e], access, row)
  {
    if AccessMade(cfg, log, access, row) {
      var i :| 0 <= i < |log| && Grants(cfg, log[i], access, row);
      assert Grants(cfg, (log + [e])[i], access, row);
    } else {
      assert Grants(cfg, (log + [e])[|log|], access, row);
    }
  }

  lemma AddsKeepsHeld(cfg: Config, w: World, w': World, e: Event)
    requires Held(cfg, w) && Adds(cfg, w, w', e)
    ensures Held(cfg, w')
  {
    forall k | k in w'.sv.states ensures StateMade(w'.log, k, w'.sv.states[k]) {
      StateMadeStays(w.log, e, k, w'.sv.states[k]);
    }
    forall k | k in w'.sv.codes ensures CodeMade(w'.log, k, w'.sv.codes[k].value, w'.sv.codes[k].expiresAt) {
      CodeMadeStays(w.log, e, k, w'.sv.codes[k].value, w'.sv.codes[k].expiresAt);
    }
    forall k | k in w'.sv.refresh ensures PairMade(cfg, w'.log, k, w'.sv.refresh[k].value, w'.sv.refresh[k].expiresAt) {
      PairMadeStays(cfg, w.log, e, k, w'.sv.refresh[k].value, w'.sv.refresh[k].expiresAt);
    }
    forall k | k in w'.sv.tokens ensures AccessMade(cfg, w'.log, k, w'.sv.tokens[k]) {
      AccessMadeStays(cfg, w.log, e, k, w'.sv.tokens[k]);
    }
  }

  lemma AddsKeepsUnspent(cfg: Config, w: World, w': World, e: Event)
    requires NamesKnown(w) && NoneSpent(w) && Adds(cfg, w, w', e)
    ensures NamesKnown(w') && NoneSpent(w')
  {
    AddsAlive(cfg, w, w', e);
    forall k | k in Alive(w'.sv) ensures !Spent(w'.log, k) {
      forall i | 0 <= i < |w'.log| ensures Consumes(w'.log[i]) != Some(k) {
        if i < |w.log| {
          assert k in Alive(w.sv) ==> !Spent(w.log, k);
        }
      }
    }
  }

  /** The new name takes over the login of the one it was paid for with, or opens a new one. */
  lemma HandOver(alive: set<string>, alive': set<string>, l: string -> Option<string>, l': string -> Option<string>,
                 made: string, spent: Option<string>)
    requires alive' <= alive + {made}
    requires forall k :: k in alive ==> l(k).Some? && l(k) != Some(made)
    requires forall j, k :: j in alive && k in alive && l(j) == l(k) ==> j == k
    requires forall k :: k in alive' && k != made ==> l'(k) == l(k)
    requires l'(made) == match spent case None => Some(made) case Some(x) => l(x)
    requires spent.Some? ==> spent.value in alive && spent.value !in alive'
    ensures forall k :: k in alive' ==> l'(k).Some?
    ensures forall j, k :: j in alive' && k in alive' && l'(j) == l'(k) ==> j == k
  {
  }

  lemma AddsKeepsOneEach(cfg: Config, w: World, w': World, e: Event)
    requires NamesKnown(w) && OneEach(w) && Adds(cfg, w, w', e)
    ensures OneEach(w')
  {
    AddsAlive(cfg, w, w', e);
    LoginsAreKnown(w);
    forall k ensures Login(w'.log, k) == if Produces(e) != k then Login(w.log, k)
                                         else match Consumes(e) case None => Some(k) case Some(x) => Login(w.log, x)
    {
      LoginAppend(w.log, e, k);
    }
    HandOver(Alive(w.sv), Alive(w'.sv), k => Login(w.log, k), k => Login(w'.log, k), Produces(e), Consumes(e));
  }

  lemma {:induction false} LoginIsAName(log: seq<Event>, names: set<string>, name: string)
    requires forall i :: 0 <= i < |log| ==> Produces(log[i]) in names
    ensures Login(log, name).Some? ==> Login(log, name).value in names
  {
    if log != [] {
      LoginIsAName(log[..|log| - 1], names, name);
      if Consumes(log[|log| - 1]).Some? {
        LoginIsAName(log[..|log| - 1], names, Consumes(log[|log| - 1]).value);
      }
    }
  }

  lemma LoginsAreKnown(w: World)
    requires NamesKnown(w)
    ensures forall k :: Login(w.log, k).Some? ==> Login(w.log, k).value in w.names
  {
    forall k ensures Login(w.log, k).Some? ==> Login(w.log, k).value in w.names {
      LoginIsAName(w.log, w.names, k);
    }
  }

  lemma AddsKeepsInv(cfg: Config, w: World, w': World, e: Event)
    requires Inv(cfg, w) && Adds(cfg, w, w', e)
    ensures Inv(cfg, w')
  {
    AddsKeepsLog(cfg, w, w', e);
    AddsKeepsHeld(cfg, w, w', e);
    AddsKeepsUnspent(cfg, w, w', e);
    AddsKeepsOneEach(cfg, w, w', e);
  }

  /** 0 makes states, 1 codes, 2 refresh tokens. */
  function Kind(e: Event): nat {
    match e
    case Authorized(_, _, _) => 0
    case Called(_, _, _, _, _, _) => 1
    case Spiked(_, _, _) => 1
    case Exchanged(_, _, _, _, _, _) => 2
    case Rotated(_, _, _, _, _) => 2
  }

  predicate MadeAs(log: seq<Event>, k: string, kind: nat) {
    exists i :: 0 <= i < |log| && Kind(log[i]) == kind && Produces(log[i]) == k
  }

  lemma HeldKinds(cfg: Config, w: World, k: string)
    requires Held(cfg, w)
    ensures k in w.sv.states ==> MadeAs(w.log, k, 0)
    ensures k in w.sv.codes ==> MadeAs(w.log, k, 1)
    ensures k in w.sv.refresh ==> MadeAs(w.log, k, 2)
  {
    if k in w.sv.states {
      var i :| 0 <= i < |w.log|
        && w.log[i] == Authorized(k, w.sv.states[k].value, w.sv.states[k].expiresAt - STATE_TTL);
      assert Kind(w.log[i]) == 0 && Produces(w.log[i]) == k;
    }
    if k in w.sv.codes {
      var i :| 0 <= i < |w.log| && Mints(w.log[i], k, w.sv.codes[k].value, w.sv.codes[k].expiresAt);
      assert Kind(w.log[i]) == 1 && Produces(w.log[i]) == k;
    }
    if k in w.sv.refresh {
      var i :| 0 <= i < |w.log| && Pairs(w.log[i], k, w.sv.refresh[k].value);
      assert Kind(w.log[i]) == 2 && Produces(w.log[i]) == k;
    }
  }

  lemma MadeAsOne(log: seq<Event>, k: string)
    requires EachOnce(log)
    ensures forall m, n :: MadeAs(log, k, m) && MadeAs(log, k, n) ==> m == n
  {
    forall m, n | MadeAs(log, k, m) && MadeAs(log, k, n) ensures m == n {
      var i :| 0 <= i < |log| && Kind(log[i]) == m && Produces(log[i]) == k;
      var j :| 0 <= j < |log| && Kind(log[j]) == n && Produces(log[j]) == k;
      assert !(i < j) && !(j < i);
    }
  }

  /** A name is a state, a code or a refresh token, never two of them. */
  lemma KindsAreDisjoint(cfg: Config, w: World, k: string)
    requires Held(cfg, w) && EachOnce(w.log)
    ensures !(k in w.sv.states && k in w.sv.codes)
    ensures !(k in w.sv.states && k in w.sv.refresh)
    ensures !(k in w.sv.codes && k in w.sv.refresh)
  {
    HeldKinds(cfg, w, k);
    MadeAsOne(w.log, k);
  }

  // ---- What each endpoint makes ----

  /** An outcome either only removes entries, or makes one event whose payment it took. */
  ghost predicate Made(cfg: Config, sv: Server, o: Outcome, drawn: set<string>) {
    && o.server.clients == sv.clients
    && (o.events == [] ==> Only(sv, o.server))
    && (o.events != [] ==>
          var e := o.events[0];
          && o.events == [e] && StoresFrom(cfg, sv, o.server, e) && Produces(e) in drawn
          && Payment(cfg, sv, o.server, e))
  }

  ghost predicate Payment(cfg: Config, sv: Server, sv': Server, e: Event) {
    match e
    case Authorized(_, r, _) => cfg.spike.None? && Registered(sv, r)
    case Spiked(_, g, _) => cfg.spike == Some(Some(g.identity)) && Registered(sv, g.request)
    case Called(_, _, at, st, _, g) =>
      && st in sv.states && st !in sv'.states && sv.states[st].value == g.request && at < sv.states[st].expiresAt
      && VerifiedFor(cfg, e)
    case Exchanged(code, verifier, _, _, data, at) =>
      code in sv.codes && code !in sv'.codes && at < sv.codes[code].expiresAt
      && Challenge(cfg, verifier) == sv.codes[code].value.request.challenge && data == DataOf(sv.codes[code].value)
    case Rotated(spent, _, r, data, at) =>
      spent in sv.refresh && (spent != r ==> spent !in sv'.refresh) && at < sv.refresh[spent].expiresAt
      && sv.refresh[spent].value == data
  }

  lemma AskMakes(cfg: Config, sv: Server, p: AuthorizeParams, secret: string, now: int)
    ensures Made(cfg, sv, Authorize(cfg, sv, p, secret, now), {secret})
  {
  }

  lemma ReturnMakes(cfg: Config, sv: Server, token: string, code: string, now: int)
    ensures Made(cfg, sv, Callback(cfg, sv, token, code, now), {code})
  {
  }

  lemma IssueStores(cfg: Config, sv: Server, data: TokenData, d: Draw, now: int, e: Event)
    requires d.dbOk && Pairs(e, cfg.hashBearer(d.refreshToken), data) && e.access == cfg.hashBearer(d.access)
        && e.at == now
    ensures StoresFrom(cfg, sv, IssuePair(cfg, sv, data, d, now).0, e)
  {
  }

  lemma PopThenStores(cfg: Config, sv: Server, mid: Server, sv': Server, e: Event)
    requires Only(sv, mid) && mid.clients == sv.clients && StoresFrom(cfg, mid, sv', e)
    ensures StoresFrom(cfg, sv, sv', e)
  {
  }

  lemma RedeemRefused(cfg: Config, sv: Server, f: TokenForm, d: Draw, now: int)
    requires Exchange(cfg, sv, f, d, now).events == []
    ensures Only(sv, Exchange(cfg, sv, f, d, now).server) && Exchange(cfg, sv, f, d, now).server.clients == sv.clients
  {
  }

  lemma RedeemMakes(cfg: Config, sv: Server, f: TokenForm, d: Draw, now: int)
    ensures Made(cfg, sv, Exchange(cfg, sv, f, d, now), {cfg.hashBearer(d.access), cfg.hashBearer(d.refreshToken)})
  {
    var o := Exchange(cfg, sv, f, d, now);
    if o.events == [] {
      RedeemRefused(cfg, sv, f, d, now);
    } else {
      var mid := sv.(codes := Pop(sv.codes, f.code.value, now).1);
      IssueStores(cfg, mid, o.events[0].data, d, now, o.events[0]);
      PopThenStores(cfg, sv, mid, o.server, o.events[0]);
    }
  }

  lemma RenewRefused(cfg: Config, sv: Server, f: TokenForm, d: Draw, now: int)
    requires Refresh(cfg, sv, f, d, now).events == []
    ensures Only(sv, Refresh(cfg, sv, f, d, now).server) && Refresh(cfg, sv, f, d, now).server.clients == sv.clients
  {
  }

  lemma RenewMakes(cfg: Config, sv: Server, f: TokenForm, d: Draw, now: int)
    ensures Made(cfg, sv, Refresh(cfg, sv, f, d, now), {cfg.hashBearer(d.access), cfg.hashBearer(d.refreshToken)})
  {
    var o := Refresh(cfg, sv, f, d, now);
    if o.events == [] {
      RenewRefused(cfg, sv, f, d, now);
    } else {
      var mid := sv.(refresh := Pop(sv.refresh, cfg.hashBearer(f.refreshToken.value), now).1);
      IssueStores(cfg, mid, o.events[0].data, d, now, o.events[0]);
      PopThenStores(cfg, sv, mid, o.server, o.events[0]);
    }
  }

  lemma PaidJustified(cfg: Config, w: World, sv': Server, e: Event)
    requires Held(cfg, w) && Payment(cfg, w.sv, sv', e)
    ensures Justified(cfg, w.log, e)
  {
    match e
    case Authorized(_, _, _) =>
    case Spiked(_, _, _) =>
    case Called(_, _, _, st, _, _) =>
      var entry := w.sv.states[st];
      var i :| 0 <= i < |w.log| && w.log[i] == Authorized(st, entry.value, entry.expiresAt - STATE_TTL);
      assert Answers(e, w.log[i]);
    case Exchanged(code, _, _, _, _, _) =>
      var entry := w.sv.codes[code];
      var i :| 0 <= i < |w.log| && Mints(w.log[i], code, entry.value, entry.expiresAt);
      assert Redeems(cfg, e, w.log[i]);
    case Rotated(spent, _, _, _, _) =>
      var entry := w.sv.refresh[spent];
      var i :| 0 <= i < |w.log| && Pairs(w.log[i], spent, entry.value)
          && entry.expiresAt == w.log[i].at + cfg.refreshTtl;
      assert Renews(cfg, e, w.log[i]);
  }

  /** The three stores a spent name could still be in. */
  lemma SpentIsGone(cfg: Config, sv: Server, sv': Server, e: Event, k: string)
    requires StoresFrom(cfg, sv, sv', e) && Produces(e) != k
    ensures k in sv'.states ==> k in sv.states
    ensures k in sv'.codes ==> k in sv.codes
    ensures k in sv'.refresh ==> k in sv.refresh
  {
  }

  lemma PaidIsGone(cfg: Config, w: World, sv': Server, e: Event)
    requires Held(cfg, w) && EachOnce(w.log) && NamesKnown(w)
    requires StoresFrom(cfg, w.sv, sv', e) && Payment(cfg, w.sv, sv', e) && Produces(e) !in w.names
    ensures Consumes(e).Some? ==> Consumes(e).value in Alive(w.sv) && Consumes(e).value !in Alive(sv')
  {
    if Consumes(e).Some? {
      var k := Consumes(e).value;
      assert k in Alive(w.sv);
      KindsAreDisjoint(cfg, w, k);
      SpentIsGone(cfg, w.sv, sv', e, k);
    }
  }

  lemma MadeKeepsInv(cfg: Config, w: World, o: Outcome, drawn: set<string>)
    requires Inv(cfg, w) && Made(cfg, w.sv, o, drawn) && drawn !! w.names
    ensures Inv(cfg, World(o.server, w.log + o.events, w.names + drawn))
  {
    var w' := World(o.server, w.log + o.events, w.names + drawn);
    if o.events == [] {
      ShrinkKeepsInv(cfg, w, w');
    } else {
      PaidJustified(cfg, w, o.server, o.events[0]);
      PaidIsGone(cfg, w, o.server, o.events[0]);
      AddsKeepsInv(cfg, w, w', o.events[0]);
    }
  }

  lemma RegisterOnly(sv: Server, uris: seq<string>, clientId: string)
    requires clientId !in sv.clients
    ensures var t := Register(sv, uris, clientId).0;
            Only(sv, t) && t.clients.Keys <= sv.clients.Keys + {clientId}
  {
  }

  lemma RetireOnly(cfg: Config, sv: Server, id: string)
    ensures var o := Perform(cfg, sv, RetireClient(id));
            o.events == [] && Only(sv, o.server) && o.server.clients.Keys == sv.clients.Keys
  {
  }

  lemma AdminOnly(cfg: Config, sv: Server, a: Action)
    requires a.RegisterClient? || a.RetireClient? || a.LoadJwk?
    requires a.RegisterClient? ==> a.clientId !in sv.clients
    ensures var o := Perform(cfg, sv, a);
            o.events == [] && Only(sv, o.server) && o.server.clients.Keys <= sv.clients.Keys + Drawn(cfg, a)
  {
    if a.RegisterClient? {
      RegisterOnly(sv, a.uris, a.clientId);
    } else if a.RetireClient? {
      RetireOnly(cfg, sv, a.clientId);
    }
  }

  lemma AdminKeepsInv(cfg: Config, w: World, a: Action, o: Outcome)
    requires Inv(cfg, w) && (a.RegisterClient? || a.RetireClient? || a.LoadJwk?) && Fresh(cfg, w, a)
    requires o == Perform(cfg, w.sv, a)
    ensures Inv(cfg, World(o.server, w.log + o.events, w.names + Drawn(cfg, a)))
  {
    AdminOnly(cfg, w.sv, a);
    ShrinkKeepsInv(cfg, w, World(o.server, w.log + o.events, w.names + Drawn(cfg, a)));
  }

  lemma StepKeepsInv(cfg: Config, w: World, a: Action)
    requires Inv(cfg, w)
    ensures Inv(cfg, Step(cfg, w, a))
  {
    if Fresh(cfg, w, a) {
      match a
      case Ask(p, secret, now) =>
        AskMakes(cfg, w.sv, p, secret, now);
        MadeKeepsInv(cfg, w, Authorize(cfg, w.sv, p, secret, now), {secret});
      case Return(token, code, now) =>
        ReturnMakes(cfg, w.sv, token, code, now);
        MadeKeepsInv(cfg, w, Callback(cfg, w.sv, token, code, now), {code});
      case Redeem(f, d, now) =>
        RedeemMakes(cfg, w.sv, f, d, now);
        MadeKeepsInv(cfg, w, Exchange(cfg, w.sv, f, d, now), Drawn(cfg, a));
      case Renew(f, d, now) =>
        RenewMakes(cfg, w.sv, f, d, now);
        MadeKeepsInv(cfg, w, Refresh(cfg, w.sv, f, d, now), Drawn(cfg, a));
      case _ => AdminKeepsInv(cfg, w, a, Perform(cfg, w.sv, a));
    }
  }

  lemma {:induction false} RunKeepsInv(cfg: Config, actions: seq<Action>)
    ensures Inv(cfg, Run(cfg, actions))
  {
    if actions != [] {
      RunKeepsInv(cfg, actions[..|actions| - 1]);
      StepKeepsInv(cfg, Run(cfg, actions[..|actions| - 1]), actions[|actions| - 1]);
    }
  }

  // ---- One login, one line of descent ----

  /** In every run a state, a code and a refresh token are spent at most once: one code per
      state, one token pair per code, one successor per refresh token. */
  lemma SpentAtMostOnce(cfg: Config, actions: seq<Action>, i: nat, j: nat)
    requires i < j < |Run(cfg, actions).log|
    ensures Consumes(Run(cfg, actions).log[i]).Some? ==>
              Consumes(Run(cfg, actions).log[i]) != Consumes(Run(cfg, actions).log[j])
  {
    RunKeepsInv(cfg, actions);
  }

  /** Across all three stores, a login has at most one live artefact: its state, or its code,
      or its one unspent refresh token. */
  lemma OneLiveArtefactPerLogin(cfg: Config, actions: seq<Action>, j: string, k: string)
    requires j in Alive(Run(cfg, actions).sv) && k in Alive(Run(cfg, actions).sv)
    ensures Login(Run(cfg, actions).log, j).Some?
    ensures Login(Run(cfg, actions).log, j) == Login(Run(cfg, actions).log, k) ==> j == k
    ensures !Spent(Run(cfg, actions).log, j)
  {
    RunKeepsInv(cfg, actions);
  }

  /** An answer that sends the client somewhere names a URI it registered, and that is on the
      allowlist. */
  predicate SendsToRegistered(sv: Server, r: Response) {
    r.ToClient? ==>
      RedirectUriAllowed(r.redirectUri) && exists id :: id in sv.clients && r.redirectUri in sv.clients[id].redirectUris
  }

  lemma AuthorizeSendsToRegistered(cfg: Config, sv: Server, p: AuthorizeParams, secret: string, now: int)
    ensures SendsToRegistered(sv, Authorize(cfg, sv, p, secret, now).response)
  {
    AuthorizeOutcome(cfg, sv, p, secret, now);
  }

  lemma CallbackSendsToRegistered(cfg: Config, w: World, token: string, code: string, now: int)
    requires Held(cfg, w) && Asked(w)
    ensures SendsToRegistered(w.sv, Callback(cfg, w.sv, token, code, now).response)
  {
    CallbackOutcome(cfg, w.sv, token, code, now);
    if Callback(cfg, w.sv, token, code, now).response.ToClient? {
      StateIsRegistered(cfg, w, cfg.verify(w.sv.jwk.value, token, now).value.mcpState.value);
    }
  }

  lemma TokensSendNowhere(cfg: Config, sv: Server, f: TokenForm, d: Draw, now: int)
    ensures !Exchange(cfg, sv, f, d, now).response.ToClient? && !Refresh(cfg, sv, f, d, now).response.ToClient?
  {
    ExchangeOutcome(cfg, sv, f, d, now);
    RefreshOutcome(cfg, sv, f, d, now);
  }

  lemma PerformSendsToRegistered(cfg: Config, w: World, a: Action)
    requires Held(cfg, w) && Asked(w)
    ensures SendsToRegistered(w.sv, Perform(cfg, w.sv, a).response)
  {
    match a
    case Ask(p, secret, now) => AuthorizeSendsToRegistered(cfg, w.sv, p, secret, now);
    case Return(token, code, now) => CallbackSendsToRegistered(cfg, w, token, code, now);
    case Redeem(f, d, now) => TokensSendNowhere(cfg, w.sv, f, d, now);
    case Renew(f, d, now) => TokensSendNowhere(cfg, w.sv, f, d, now);
    case _ =>
  }

  /** Whatever is asked of a reachable server, no client is sent anywhere else. */
  lemma RedirectsAreRegistered(cfg: Config, actions: seq<Action>, a: Action)
    ensures SendsToRegistered(Run(cfg, actions).sv, Perform(cfg, Run(cfg, actions).sv, a).response)
  {
    RunKeepsInv(cfg, actions);
    PerformSendsToRegistered(cfg, Run(cfg, actions), a);
  }

  lemma StateIsRegistered(cfg: Config, w: World, st: string)
    requires Held(cfg, w) && Asked(w) && st in w.sv.states
    ensures Registered(w.sv, w.sv.states[st].value)
  {
    assert StateMade(w.log, st, w.sv.states[st]);
  }

  // ---- Where tokens come from ----

  lemma {:induction false} LoginStays(log: seq<Event>, i: nat, m: nat)
    requires EachOnce(log) && i < m <= |log|
    ensures Login(log[..m], Produces(log[i])) == Login(log[..i + 1], Produces(log[i]))
    decreases m
  {
    if m > i + 1 {
      LoginStays(log, i, m - 1);
      assert log[..m] == log[..m - 1] + [log[m - 1]];
      LoginAppend(log[..m - 1], log[m - 1], Produces(log[i]));
    }
  }

  lemma LoginAt(log: seq<Event>, i: nat)
    requires i < |log|
    ensures Login(log[..i + 1], Produces(log[i]))
         == match Consumes(log[i]) case None => Some(Produces(log[i])) case Some(x) => Login(log[..i], x)
  {
    assert log[..i + 1] == log[..i] + [log[i]];
    LoginAppend(log[..i], log[i], Produces(log[i]));
  }

  predicate RootedAt(e: Event, login: string) {
    (e.Called? && e.spentState == login) || (e.Spiked? && e.newCode == login)
  }

  /** The code event and the exchange behind a token's data. */
  predicate TracedBy(cfg: Config, ec: Event, ex: Event, login: string, data: TokenData) {
    && RootedAt(ec, login)
    && ex.Exchanged? && Redeems(cfg, ex, ec) && data == ex.data
  }

  /** The login of a minted code is the state its callback claimed. */
  lemma CodeLogin(cfg: Config, log: seq<Event>, i: nat, m: nat)
    requires LegalLog(cfg, log) && EachOnce(log) && i < m <= |log|
    requires log[i].Called? || log[i].Spiked?
    ensures Login(log[..m], log[i].newCode).Some? && RootedAt(log[i], Login(log[..m], log[i].newCode).value)
  {
    LoginStays(log, i, m);
    LoginAt(log, i);
    if log[i].Called? {
      assert Justified(cfg, log[..i], log[i]);
      var h :| 0 <= h < i && Answers(log[i], log[..i][h]);
      LoginStays(log, h, i);
      LoginAt(log, h);
    }
  }

  lemma ExchangeTraced(cfg: Config, log: seq<Event>, k: nat) returns (i: nat)
    requires LegalLog(cfg, log) && EachOnce(log) && k < |log| && log[k].Exchanged?
    ensures i < k && Login(log[..k], log[k].spentCode).Some?
    ensures TracedBy(cfg, log[i], log[k], Login(log[..k], log[k].spentCode).value, log[k].data)
  {
    assert Justified(cfg, log[..k], log[k]);
    i :| 0 <= i < k && Redeems(cfg, log[k], log[..k][i]);
    CodeLogin(cfg, log, i, k);
  }

  /** Pair `k` comes from pair `j` by rotations, each spending the refresh token of the one before
      it while that was good, for the same data. */
  predicate Descends(cfg: Config, log: seq<Event>, j: nat, k: nat)
    requires j < |log| && k < |log|
    decreases k
  {
    j == k || (log[k].Rotated? && exists p :: j <= p < k && Renews(cfg, log[k], log[p]) && Descends(cfg, log, j, p))
  }

  /** Every pair, however many rotations on, comes from an exchange of its own login's code. */
  lemma {:induction false} PairTraced(cfg: Config, log: seq<Event>, k: nat, m: nat) returns (i: nat, j: nat)
    requires LegalLog(cfg, log) && EachOnce(log) && k < m <= |log|
    requires log[k].Exchanged? || log[k].Rotated?
    ensures i < j <= k && Descends(cfg, log, j, k)
    ensures Login(log[..m], log[k].newRefresh).Some?
    ensures TracedBy(cfg, log[i], log[j], Login(log[..m], log[k].newRefresh).value, log[k].data)
    decreases k
  {
    LoginStays(log, k, m);
    LoginAt(log, k);
    if log[k].Exchanged? {
      i := ExchangeTraced(cfg, log, k);
      j := k;
    } else {
      assert Justified(cfg, log[..k], log[k]);
      var p :| 0 <= p < k && Renews(cfg, log[k], log[..k][p]);
      i, j := PairTraced(cfg, log, p, k);
      assert Renews(cfg, log[k], log[p]);
    }
  }

  /** The client a request names was registered for its redirect URI, and not retired. */
  predicate LiveClient(sv: Server, r: AuthRequest) {
    Registered(sv, r) && !sv.clients[r.clientId].deleted
  }

  /** Event `h` of the run is what step `n` made, a call to `/authorize` by a client that was live
      when it called. */
  predicate AskedAt(cfg: Config, actions: seq<Action>, n: nat, h: nat)
    requires n < |actions| && h < |Run(cfg, actions).log|
  {
    var before, ask := Run(cfg, actions[..n]), Run(cfg, actions).log[h];
    && actions[n].Ask? && |before.log| == h
    && ask.Authorized? && ask.mcpState == actions[n].secret && ask.at == actions[n].now
    && Keeps(cfg, ask.request, actions[n].params)
    && LiveClient(before.sv, ask.request)
  }

  lemma {:induction false} AskWasLive(cfg: Config, actions: seq<Action>, h: nat) returns (n: nat)
    requires h < |Run(cfg, actions).log| && Run(cfg, actions).log[h].Authorized?
    ensures n < |actions| && AskedAt(cfg, actions, n, h)
  {
    var init := actions[..|actions| - 1];
    var w := Run(cfg, init);
    if h < |w.log| {
      n := AskWasLive(cfg, init, h);
      assert actions[..n] == init[..n];
    } else {
      n := |actions| - 1;
      OnlyAskAuthorizes(cfg, w, actions[n], h);
    }
  }

  lemma OnlyAskAuthorizes(cfg: Config, w: World, a: Action, h: nat)
    requires |w.log| <= h < |Step(cfg, w, a).log| && Step(cfg, w, a).log[h].Authorized?
    ensures a.Ask? && h == |w.log| && LiveClient(w.sv, Step(cfg, w, a).log[h].request)
    ensures var ask := Step(cfg, w, a).log[h];
            ask.mcpState == a.secret && ask.at == a.now && Keeps(cfg, ask.request, a.params)
  {
    var o := Perform(cfg, w.sv, a);
    assert Step(cfg, w, a).log == w.log + o.events && o.events[h - |w.log|].Authorized?;
  }

  /** The whole story of a token: the call to `/authorize` by a client registered and live at that
      time, the bridge callback that claimed its state with a verified JWT for this identity, and
      the exchange whose verifier meets the challenge; each within ten minutes of the one before,
      with one client throughout. */
  ghost predicate Story(cfg: Config, actions: seq<Action>, data: TokenData, h: int, i: int, j: int)
    requires 0 <= h < i < j < |Run(cfg, actions).log|
  {
    var w := Run(cfg, actions);
    var ask, back, ex := w.log[h], w.log[i], w.log[j];
    && ask.Authorized? && Registered(w.sv, ask.request)
    && (exists n :: 0 <= n < |actions| && AskedAt(cfg, actions, n, h))
    && back.Called? && back.spentState == ask.mcpState && back.grant.request == ask.request && VerifiedFor(cfg, back)
    && back.at < ask.at + STATE_TTL
    && ex.Exchanged? && ex.spentCode == back.newCode && Challenge(cfg, ex.verifier) == ask.request.challenge
    && ex.at < back.at + AUTH_CODE_TTL
    && data == TokenData(ask.request.clientId, back.grant.identity, ask.request.resource, [ask.request.scope])
  }

  /** The line of one access token: event `k` issued its row, rotations lead from the exchange `j`
      to `k`, the story of that exchange starts with the call `h`, and the state made by that call
      is the login the row's refresh token belongs to. */
  ghost predicate Lineage(cfg: Config, actions: seq<Action>, access: string, h: int, i: int, j: int, k: int)
    requires access in Run(cfg, actions).sv.tokens && 0 <= h < i < j <= k < |Run(cfg, actions).log|
  {
    var w := Run(cfg, actions);
    var row := w.sv.tokens[access];
    && Grants(cfg, w.log[k], access, row)
    && Descends(cfg, w.log, j, k)
    && Story(cfg, actions, row.data, h, i, j)
    && Login(w.log, row.refreshHash) == Some(w.log[h].mcpState)
  }

  lemma PairOfLogin(cfg: Config, log: seq<Event>, k: nat) returns (login: string, i: nat, j: nat)
    requires LegalLog(cfg, log) && EachOnce(log) && k < |log| && (log[k].Exchanged? || log[k].Rotated?)
    ensures i < j <= k && Descends(cfg, log, j, k)
    ensures Login(log, log[k].newRefresh) == Some(login) && TracedBy(cfg, log[i], log[j], login, log[k].data)
  {
    i, j := PairTraced(cfg, log, k, |log|);
    assert log[..|log|] == log;
    login := Login(log, log[k].newRefresh).value;
  }

  /** The event that issued a row, and the exchange its login began with. */
  lemma RowTraced(cfg: Config, w: World, access: string) returns (login: string, i: nat, j: nat, k: nat)
    requires Inv(cfg, w) && access in w.sv.tokens
    ensures i < j <= k < |w.log| && Grants(cfg, w.log[k], access, w.sv.tokens[access]) && Descends(cfg, w.log, j, k)
    ensures Login(w.log, w.sv.tokens[access].refreshHash) == Some(login)
    ensures TracedBy(cfg, w.log[i], w.log[j], login, w.sv.tokens[access].data)
  {
    k :| 0 <= k < |w.log| && Grants(cfg, w.log[k], access, w.sv.tokens[access]);
    login, i, j := PairOfLogin(cfg, w.log, k);
  }

  /** With spike mode off, every access token in the table has such a line, from the call of its
      own login, and expires its lifetime after it was issued. */
  lemma TokenProvenance(cfg: Config, actions: seq<Action>, access: string) returns (h: nat, i: nat, j: nat, k: nat)
    requires cfg.spike.None? && access in Run(cfg, actions).sv.tokens
    ensures h < i < j <= k < |Run(cfg, actions).log| && Lineage(cfg, actions, access, h, i, j, k)
  {
    RunKeepsInv(cfg, actions);
    var login;
    login, i, j, k := RowTraced(cfg, Run(cfg, actions), access);
    h := StoryOfTrace(cfg, actions, login, Run(cfg, actions).sv.tokens[access].data, i, j);
  }

  lemma AskedFor(cfg: Config, w: World, i: nat) returns (h: nat)
    requires LegalLog(cfg, w.log) && Asked(w) && i < |w.log| && w.log[i].Called?
    ensures h < i && Answers(w.log[i], w.log[h]) && Registered(w.sv, w.log[h].request) && VerifiedFor(cfg, w.log[i])
  {
    assert Justified(cfg, w.log[..i], w.log[i]);
    h :| 0 <= h < i && Answers(w.log[i], w.log[..i][h]);
  }

  lemma StoryOfTrace(cfg: Config, actions: seq<Action>, login: string, data: TokenData, i: nat, j: nat) returns (h: nat)
    requires cfg.spike.None? && Inv(cfg, Run(cfg, actions)) && i < j < |Run(cfg, actions).log|
    requires TracedBy(cfg, Run(cfg, actions).log[i], Run(cfg, actions).log[j], login, data)
    ensures h < i && Story(cfg, actions, data, h, i, j) && Run(cfg, actions).log[h].mcpState == login
  {
    var w := Run(cfg, actions);
    OneKindOfRoot(cfg, w.log, i);
    h := AskedFor(cfg, w, i);
    var n := AskWasLive(cfg, actions, h);
  }

  lemma OneKindOfRoot(cfg: Config, log: seq<Event>, i: nat)
    requires LegalLog(cfg, log) && i < |log|
    ensures log[i].Called? ==> cfg.spike.None?
    ensures log[i].Spiked? ==> cfg.spike.Some?
  {
    assert Justified(cfg, log[..i], log[i]);
    if log[i].Called? {
      var h :| 0 <= h < i && Answers(log[i], log[..i][h]);
      assert Justified(cfg, log[..h], log[h]);
    }
  }

  lemma RootIsUnique(cfg: Config, log: seq<Event>, i: nat, j: nat, login: string)
    requires LegalLog(cfg, log) && EachOnce(log) && i < |log| && j < |log|
    requires RootedAt(log[i], login) && RootedAt(log[j], login)
    ensures i == j
  {
    OneKindOfRoot(cfg, log, i);
    OneKindOfRoot(cfg, log, j);
    assert log[i].Called? ==> Consumes(log[i]) == Consumes(log[j]);
    assert log[i].Spiked? ==> Produces(log[i]) == Produces(log[j]);
  }

  /** All tokens of one login carry the same client, tenant, user, resource and scopes. */
  lemma OneLoginOneIdentity(cfg: Config, actions: seq<Action>, r: string, s: string)
    requires var w := Run(cfg, actions);
             r in w.sv.tokens && s in w.sv.tokens
             && Login(w.log, w.sv.tokens[r].refreshHash) == Login(w.log, w.sv.tokens[s].refreshHash)
    ensures Run(cfg, actions).sv.tokens[r].data == Run(cfg, actions).sv.tokens[s].data
  {
    var w := Run(cfg, actions);
    RunKeepsInv(cfg, actions);
    var login, i, j, k := RowTraced(cfg, w, r);
    var login', i', j', k' := RowTraced(cfg, w, s);
    RootIsUnique(cfg, w.log, i, i', login);
  }
}
