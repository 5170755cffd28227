/**
 * The whole connector, one request after another: the endpoints of backend/mcp_oauth.py and
 * backend/auth.py over the stores they share. Any such history is a run of the sign-in protocol and
 * a run of the rotation protocol, both from their beginning, over the same rows and families.
 */
module Connector {
  import opened Prelude
  import opened OauthState
  import opened Registrations
  import opened Runs
  import E = SignInEndpoint
  import EP = SignInEndpointProofs
  import P = SignIn
  import R = Rotation
  import RR = RotationRuns
  import T = TokenEndpoint
  import TP = TokenEndpointProofs

  /** The stores and the allow list between requests, with every text and family id generated so far. */
  datatype Site = Site(
    clock: Time, clients: Rows<Client>, web: Rows<()>, sessions: Rows<P.Request>, codes: Rows<P.Code>,
    tokens: Rows<Refresh>, allowed: set<string>, drawn: set<string>, begun: set<nat>)
  {
    function SignInStores(): E.Stores {
      E.Stores(clients, web, sessions, codes)
    }

    function TokenStores(): T.Stores {
      T.Stores(clients, codes, tokens)
    }
  }

  datatype Request =
    | Register(id: string, authMethod: string, redirectUris: seq<string>, secret: string, now: Time)
    | StartWebSignIn(configured: bool, state: string, now: Time)
    | Authorize(configured: bool, request: P.Request, responseType: string, state: string, lookedUpAt: Time, now: Time)
    | Callback(state: string, cookie: Option<string>, google: E.Google, code: string, readAt: E.Readings)
    | Redeem(presented: string, redirectUri: string, id: string, secret: string, verifier: string, token: string,
             family: nat, at: T.Readings)
    | Rotate(presented: string, id: string, secret: string, token: string, at: T.Readings)
    | Allow(emails: set<string>, now: Time)

  function Initial(allowed: set<string>): Site {
    Site(0, map[], map[], map[], map[], map[], allowed, {}, {})
  }

  /** Why an authorize request is refused, if it is. */
  function AuthorizeRefusal(s: Site, r: Request, safe: string -> bool): Option<E.Refusal>
    requires r.Authorize?
  {
    E.AuthorizeRefusal(s.clients, r.request, r.responseType, r.configured, safe, r.lookedUpAt)
  }

  /** What one request leaves. Its clock readings come in order, and what it generates is new. */
  ghost predicate Handles(safe: string -> bool, s: Site, r: Request, t: Site) {
    match r
    case Register(id, authMethod, redirectUris, secret, now) =>
      && s.clock <= now && id !in s.drawn
      && t == s.(clock := now, clients := t.clients, drawn := s.drawn + {id})
      && if E.RegistrationRefusal(authMethod, redirectUris, safe).Some? then t.clients == s.clients
         else Stored(s.clients, Plain(id), Row(Client(authMethod == "none", Digest(secret), redirectUris),
                                               now + UNUSED_CLIENT_TTL),
                     MAX_CLIENTS, now, t.clients)
    case StartWebSignIn(configured, state, now) =>
      && s.clock <= now && state !in s.drawn
      && t == s.(clock := now, web := t.web, drawn := s.drawn + {state})
      && if configured then Stored(s.web, Plain(state), Row((), now + E.WEB_SIGN_IN_TTL), P.MAX_ENTRIES, now, t.web)
         else t.web == s.web
    case Authorize(configured, request, responseType, state, lookedUpAt, now) =>
      && s.clock <= lookedUpAt <= now && state !in s.drawn
      && t == s.(clock := now, sessions := t.sessions, drawn := s.drawn + {state},
                 clients := if E.RequestRefusal(request, responseType, configured).Some? then s.clients
                            else Purged(s.clients, lookedUpAt))
      && if AuthorizeRefusal(s, r, safe).Some? then t.sessions == s.sessions
         else Stored(s.sessions, Plain(state), Row(request, now + P.SESSION_TTL), P.MAX_ENTRIES, now, t.sessions)
    case Callback(state, cookie, google, code, readAt) =>
      && s.clock <= readAt.web <= readAt.session <= readAt.code && code !in s.drawn
      && var after := E.AfterCallback(s.SignInStores(), state, cookie, google, s.allowed, code, readAt).0;
      t == s.(clock := readAt.code, web := after.web, sessions := after.sessions, codes := after.codes,
              drawn := s.drawn + {code})
    case Redeem(presented, redirectUri, id, secret, verifier, token, family, at) =>
      && s.clock <= at.grant && TP.InOrder(at) && token !in s.drawn && family !in s.begun
      && var after := T.AfterRedemption(s.TokenStores(), s.allowed, presented, redirectUri, id, secret, verifier, token,
                                        family, at).0;
      t == s.(clock := at.issue, clients := after.clients, codes := after.codes, tokens := after.tokens,
              drawn := s.drawn + {token}, begun := s.begun + {family})
    case Rotate(presented, id, secret, token, at) =>
      && s.clock <= at.grant && TP.InOrder(at) && token !in s.drawn
      && (T.IdentityKept(s.tokens) ==>
            var after := T.AfterRotation(s.TokenStores(), s.allowed, presented, id, secret, token, at).0;
            t == s.(clock := at.issue, clients := after.clients, codes := after.codes, tokens := after.tokens,
                    drawn := s.drawn + {token}))
    case Allow(emails, now) =>
      s.clock <= now && t == s.(clock := now, allowed := emails)
  }

  /** A history of the connector: any requests, one after another, from empty stores. */
  ghost predicate History(safe: string -> bool, allowed: set<string>, sites: seq<Site>, requests: seq<Request>) {
    && |sites| == |requests| + 1 && sites[0] == Initial(allowed)
    && forall i :: 0 <= i < |requests| ==> Handles(safe, sites[i], requests[i], sites[i + 1])
  }

  // --- The two protocols mirror it ------------------------------------------------

  /** A family's code, as the sign-in protocol knows it, is the account and request the rotation protocol fixed. */
  predicate SameFamily(begun: R.Family, origin: P.Origin) {
    && begun.subject == origin.grant.subject && begun.email == origin.grant.email
    && begun.client == origin.grant.request.client && begun.scope == origin.grant.request.scope
  }

  /** After n requests the protocols stand at the same rows and families, with nothing of theirs in flight. */
  ghost predicate Mirrors(s: Site, m: P.State, w: R.State, n: nat) {
    && m.clock == s.clock && m.sessions == s.sessions && m.codes == s.codes
    && w.clock == s.clock && w.tokens == s.tokens && w.allowed == s.allowed
    && (forall p :: p in w.exchanges ==> p < n && w.exchanges[p].Answered?)
    && (forall p :: p in m.callbacks ==> p < n) && (forall p :: p in m.exchanges ==> p < n)
    && (forall k :: k in w.issued ==> k.value in s.drawn)
    && (forall k :: k in m.trail.sessionOf ==> k.value in s.drawn)
    && (forall k :: k in m.trail.codeOf ==> k.value in s.drawn)
    && w.families.Keys == m.families.Keys <= s.begun
    && (forall f :: f in w.families ==> SameFamily(w.families[f], m.families[f]))
  }

  lemma StaysMirrored(s: Site, t: Site, m: P.State, w: R.State, n: nat)
    requires Mirrors(s, m, w, n) && s.clock <= t.clock
    requires t.sessions == s.sessions && t.codes == s.codes && t.tokens == s.tokens && t.allowed == s.allowed
    requires s.drawn <= t.drawn && s.begun <= t.begun
    ensures Mirrors(t, m.(clock := t.clock), w.(clock := t.clock), n + 1)
  {}

  lemma OnlyTicks(s: Site, t: Site, m: P.State, w: R.State, n: nat)
    returns (ps: seq<P.State>, pSteps: seq<P.Step>, rs: seq<R.State>, rSteps: seq<R.Step>)
    requires Mirrors(s, m, w, n) && s.clock <= t.clock
    requires t.sessions == s.sessions && t.codes == s.codes && t.tokens == s.tokens && t.allowed == s.allowed
    requires s.drawn <= t.drawn && s.begun <= t.begun
    ensures Leads(P.Next, ps, pSteps) && ps[0] == m && R.Run(rs, rSteps) && rs[0] == w
    ensures Mirrors(t, ps[|ps| - 1], rs[|rs| - 1], n + 1) && rs[|rs| - 1].exchanges == w.exchanges
  {
    EP.TickIsNext(m, t.clock);
    TP.TickIsNext(w, t.clock);
    StaysMirrored(s, t, m, w, n);
    hide P.Next, R.Next, Mirrors;
    ps, pSteps := [m, m.(clock := t.clock)], [P.Tick(t.clock - s.clock)];
    rs, rSteps := [w, w.(clock := t.clock)], [R.Tick(t.clock - s.clock)];
  }

  lemma MirrorsAuthorize(s: Site, r: Request, t: Site, safe: string -> bool, m: P.State, w: R.State, n: nat)
    returns (ps: seq<P.State>, pSteps: seq<P.Step>, rs: seq<R.State>, rSteps: seq<R.Step>)
    requires Mirrors(s, m, w, n) && r.Authorize? && Handles(safe, s, r, t)
    ensures Leads(P.Next, ps, pSteps) && ps[0] == m && R.Run(rs, rSteps) && rs[0] == w
    ensures Mirrors(t, ps[|ps| - 1], rs[|rs| - 1], n + 1) && rs[|rs| - 1].exchanges == w.exchanges
  {
    hide P.Next, R.Next, Stored, E.RequestRefusal, E.ClientRefusal, EP.Seen, Purged;
    if AuthorizeRefusal(s, r, safe).Some? {
      ps, pSteps, rs, rSteps := OnlyTicks(s, t, m, w, n);
    } else {
      var live := Purged(s.clients, r.lookedUpAt);
      assert Plain(r.state) !in m.trail.sessionOf;
      TP.TickIsNext(w, t.clock);
      hide Mirrors;
      ps, pSteps := EP.AuthorizeIsARun(m, live, r.configured, r.request, r.responseType, safe, r.state, r.now,
                                       t.sessions);
      rs, rSteps := [w, w.(clock := t.clock)], [R.Tick(t.clock - s.clock)];
    }
  }

  lemma CalledBackMirrors(s: Site, r: Request, t: Site, m: P.State, w: R.State, after: P.State, n: nat)
    requires Mirrors(s, m, w, n) && r.Callback? && s.clock <= t.clock == r.readAt.code
    requires t == s.(clock := t.clock, web := t.web, sessions := t.sessions, codes := t.codes,
                     drawn := s.drawn + {r.code})
    requires EP.CallbackEnds(m, after, n, r.code, r.readAt.code)
    requires after.sessions == t.sessions && after.codes == t.codes
    ensures Mirrors(t, after, w.(clock := t.clock), n + 1)
  {}

  lemma MirrorsCallback(s: Site, r: Request, t: Site, safe: string -> bool, m: P.State, w: R.State, n: nat)
    returns (ps: seq<P.State>, pSteps: seq<P.Step>, rs: seq<R.State>, rSteps: seq<R.Step>)
    requires Mirrors(s, m, w, n) && r.Callback? && Handles(safe, s, r, t)
    ensures Leads(P.Next, ps, pSteps) && ps[0] == m && R.Run(rs, rSteps) && rs[0] == w
    ensures Mirrors(t, ps[|ps| - 1], rs[|rs| - 1], n + 1) && rs[|rs| - 1].exchanges == w.exchanges
  {
    hide P.Next, R.Next, E.AfterCallback, EP.CallbackEnds;
    assert Digest(r.code) !in m.trail.codeOf;
    ps, pSteps := EP.CallbackIsARun(m, s.SignInStores(), n, r.state, r.cookie, r.google, s.allowed, r.code, r.readAt);
    TP.TickIsNext(w, t.clock);
    rs, rSteps := [w, w.(clock := t.clock)], [R.Tick(t.clock - s.clock)];
    CalledBackMirrors(s, r, t, m, w, ps[|ps| - 1], n);
    hide Mirrors;
  }

  /** Both protocols end a code exchange with the same families: one more, or none. */
  lemma BegunAlike(code: P.Code, origin: P.Origin, issue: Time)
    requires origin.grant == code
    ensures SameFamily(TP.BegunFamily(code, issue), origin)
  {}

  lemma RedeemedMirrors(s: Site, r: Request, t: Site, m: P.State, w: R.State, ended: P.State, begun: R.State, n: nat,
                        redeemed: Option<P.Code>, result: (T.Stores, T.Answer))
    requires Mirrors(s, m, w, n) && r.Redeem? && s.clock <= t.clock == r.at.issue
    requires t == s.(clock := t.clock, clients := t.clients, codes := result.0.codes, tokens := result.0.tokens,
                     drawn := s.drawn + {r.token}, begun := s.begun + {r.family})
    requires r.family !in w.families && ended.codes == result.0.codes && (result.1.Issued? ==> redeemed.Some?)
    requires EP.ExchangeEnds(m, ended, n,
                             if result.1.Issued? && redeemed.Some?
                             then m.families[r.family := P.Origin(Digest(r.presented), redeemed.value, r.redirectUri,
                                                                  r.verifier)]
                             else m.families,
                             r.at.issue)
    requires TP.Begins(w, begun, redeemed, r.family, r.token, r.at.issue, result)
    ensures Mirrors(t, ended, begun, n + 1) && begun.exchanges == w.exchanges
  {
    hide SameFamily;
    if result.1.Issued? {
      BegunAlike(redeemed.value, P.Origin(Digest(r.presented), redeemed.value, r.redirectUri, r.verifier), r.at.issue);
    }
  }

  lemma MirrorsRedeem(s: Site, r: Request, t: Site, safe: string -> bool, m: P.State, w: R.State, n: nat)
    returns (ps: seq<P.State>, pSteps: seq<P.Step>, rs: seq<R.State>, rSteps: seq<R.Step>)
    requires Mirrors(s, m, w, n) && r.Redeem? && Handles(safe, s, r, t) && R.Inv(w)
    ensures Leads(P.Next, ps, pSteps) && ps[0] == m && R.Run(rs, rSteps) && rs[0] == w
    ensures Mirrors(t, ps[|ps| - 1], rs[|rs| - 1], n + 1) && rs[|rs| - 1].exchanges == w.exchanges
  {
    hide P.Next, R.Next, R.Inv, T.AfterRedemption, TP.Redeemed, TP.Begins, EP.ExchangeEnds;
    assert Digest(r.token) !in w.issued && r.family !in w.families;
    ps, pSteps := EP.RedemptionIsARun(m, s.TokenStores(), n, s.allowed, r.presented, r.redirectUri, r.id, r.secret,
                                      r.verifier, r.token,
                                      r.family, r.at);
    rs, rSteps := TP.RedemptionBegins(w, s.TokenStores(), r.presented, r.redirectUri, r.id, r.secret, r.verifier,
                                      r.token, r.family, r.at);
    hide Mirrors;
    RedeemedMirrors(s, r, t, m, w, ps[|ps| - 1], rs[|rs| - 1], n,
                    TP.Redeemed(s.TokenStores(), r.presented, r.redirectUri, r.id, r.secret, r.verifier, r.at),
                    T.AfterRedemption(s.TokenStores(), s.allowed, r.presented, r.redirectUri, r.id, r.secret,
                                      r.verifier, r.token, r.family, r.at));
  }

  lemma MirrorsRotate(s: Site, r: Request, t: Site, safe: string -> bool, m: P.State, w: R.State, n: nat)
    returns (ps: seq<P.State>, pSteps: seq<P.Step>, rs: seq<R.State>, rSteps: seq<R.Step>)
    requires Mirrors(s, m, w, n) && r.Rotate? && Handles(safe, s, r, t) && T.IdentityKept(s.tokens)
    ensures Leads(P.Next, ps, pSteps) && ps[0] == m && R.Run(rs, rSteps) && rs[0] == w
    ensures Mirrors(t, ps[|ps| - 1], rs[|rs| - 1], n + 1)
    ensures rs[|rs| - 1].exchanges
            == if r.presented == "" then w.exchanges
               else w.exchanges[n := R.Answered(Digest(r.presented), TP.AsAnswer(AnswerTo(s, r)))]
  {
    hide P.Next, R.Next, T.IdentityKept;
    RotationLeavesCodes(s.TokenStores(), s.allowed, r.presented, r.id, r.secret, r.token, r.at);
    if r.presented == "" {
      ps, pSteps, rs, rSteps := OnlyTicks(s, t, m, w, n);
    } else {
      hide T.AfterRotation;
      EP.TickIsNext(m, t.clock);
      ps, pSteps := [m, m.(clock := t.clock)], [P.Tick(t.clock - s.clock)];
      assert Digest(r.token) !in w.issued;
      rs, rSteps := TP.RotationIsARun(w, n, s.TokenStores(), s.allowed, r.presented, r.id, r.secret, r.token, r.at);
    }
  }

  /** What a refresh request is answered. */
  function AnswerTo(s: Site, r: Request): T.Answer
    requires r.Rotate? && T.IdentityKept(s.tokens)
  {
    T.AfterRotation(s.TokenStores(), s.allowed, r.presented, r.id, r.secret, r.token, r.at).1
  }

  lemma RotationLeavesCodes(s: T.Stores, allowed: set<string>, presented: string, id: string, secret: string,
                            token: string, at: T.Readings)
    requires T.IdentityKept(s.tokens)
    ensures T.AfterRotation(s, allowed, presented, id, secret, token, at).0.codes == s.codes
  {
    hide StoreOrRefuse, WithoutFamily, Extended, T.Authenticates;
  }

  lemma InitialMirrors(allowed: set<string>)
    ensures Mirrors(Initial(allowed), P.Initial(), R.Initial(allowed), 0)
  {}

  lemma AllowMirrors(s: Site, r: Request, t: Site, safe: string -> bool, m: P.State, w: R.State, n: nat)
    returns (ps: seq<P.State>, pSteps: seq<P.Step>, rs: seq<R.State>, rSteps: seq<R.Step>)
    requires Mirrors(s, m, w, n) && r.Allow? && Handles(safe, s, r, t)
    ensures Leads(P.Next, ps, pSteps) && ps[0] == m && R.Run(rs, rSteps) && rs[0] == w
    ensures Mirrors(t, ps[|ps| - 1], rs[|rs| - 1], n + 1) && rs[|rs| - 1].exchanges == w.exchanges
  {
    EP.TickIsNext(m, t.clock);
    TP.TickIsNext(w, t.clock);
    var waited := w.(clock := t.clock);
    assert R.Next(waited, R.SetAllowed(r.emails), waited.(allowed := r.emails));
    hide P.Next, R.Next;
    ps, pSteps := [m, m.(clock := t.clock)], [P.Tick(t.clock - s.clock)];
    rs, rSteps := [w, waited, waited.(allowed := r.emails)], [R.Tick(t.clock - s.clock), R.SetAllowed(r.emails)];
  }

  /** One request, whatever it is, in both protocols. */
  lemma RequestMirrors(s: Site, r: Request, t: Site, safe: string -> bool, m: P.State, w: R.State, n: nat)
    returns (ps: seq<P.State>, pSteps: seq<P.Step>, rs: seq<R.State>, rSteps: seq<R.Step>)
    requires Mirrors(s, m, w, n) && Handles(safe, s, r, t) && R.Inv(w) && T.IdentityKept(s.tokens)
    ensures Leads(P.Next, ps, pSteps) && ps[0] == m && R.Run(rs, rSteps) && rs[0] == w
    ensures Mirrors(t, ps[|ps| - 1], rs[|rs| - 1], n + 1)
    ensures rs[|rs| - 1].exchanges
            == if r.Rotate? && r.presented != ""
               then w.exchanges[n := R.Answered(Digest(r.presented), TP.AsAnswer(AnswerTo(s, r)))]
               else w.exchanges
  {
    hide P.Next, R.Next, R.Inv, Mirrors, T.IdentityKept;
    match r
    case Authorize(_, _, _, _, _, _) => ps, pSteps, rs, rSteps := MirrorsAuthorize(s, r, t, safe, m, w, n);
    case Callback(_, _, _, _, _) => ps, pSteps, rs, rSteps := MirrorsCallback(s, r, t, safe, m, w, n);
    case Redeem(_, _, _, _, _, _, _, _) => ps, pSteps, rs, rSteps := MirrorsRedeem(s, r, t, safe, m, w, n);
    case Rotate(_, _, _, _, _) => ps, pSteps, rs, rSteps := MirrorsRotate(s, r, t, safe, m, w, n);
    case Allow(_, _) => ps, pSteps, rs, rSteps := AllowMirrors(s, r, t, safe, m, w, n);
    case _ =>
      hide Stored;
      ps, pSteps, rs, rSteps := OnlyTicks(s, t, m, w, n);
  }

  lemma IdentityFollows(w: R.State)
    requires R.Inv(w)
    ensures T.IdentityKept(w.tokens)
  {
    hide R.OneLivePerFamily, R.RotatedOnce, R.MintsHonest, R.LocksHeld, R.HeldInTime, R.ReadersKnown, R.FamiliesKnown;
  }

  /** The protocols' exchange of each refresh request ended as the request was answered. */
  ghost predicate Answers(sites: seq<Site>, requests: seq<Request>, n: nat, w: R.State)
    requires n <= |requests| < |sites|
  {
    forall q :: 0 <= q < n && requests[q].Rotate? && requests[q].presented != "" ==>
      && T.IdentityKept(sites[q].tokens)
      && q in w.exchanges && w.exchanges[q] == R.Answered(Digest(requests[q].presented),
                                                          TP.AsAnswer(AnswerTo(sites[q], requests[q])))
  }

  /**
   * Any history of whole requests is a run of the sign-in protocol and a run of the rotation protocol,
   * both from their beginning: at the same rows, with the same families, and with every refresh
   * answered as its exchange ended. So what holds over every run of either holds of the connector.
   */
  lemma {:induction false} HistoryIsARun(safe: string -> bool, allowed: set<string>, sites: seq<Site>,
                                         requests: seq<Request>, n: nat)
    returns (ps: seq<P.State>, pSteps: seq<P.Step>, rs: seq<R.State>, rSteps: seq<R.Step>)
    requires History(safe, allowed, sites, requests) && n <= |requests|
    ensures P.Run(ps, pSteps) && R.Run(rs, rSteps) && rs[0] == R.Initial(allowed)
    ensures Mirrors(sites[n], ps[|ps| - 1], rs[|rs| - 1], n) && Answers(sites, requests, n, rs[|rs| - 1])
  {
    hide P.Next, R.Next, Handles, Mirrors;
    if n == 0 {
      InitialMirrors(allowed);
      ps, pSteps, rs, rSteps := [P.Initial()], [], [R.Initial(allowed)], [];
    } else {
      ps, pSteps, rs, rSteps := HistoryIsARun(safe, allowed, sites, requests, n - 1);
      var m, w, q := ps[|ps| - 1], rs[|rs| - 1], n - 1;
      R.ReachableInv(rs, rSteps, allowed, |rs| - 1);
      IdentityFollows(w);
      MirroredTokens(sites[q], m, w, q);
      var ps', pSteps', rs', rSteps' := RequestMirrors(sites[q], requests[q], sites[n], safe, m, w, q);
      ps, pSteps := Joined(P.Next, ps, pSteps, ps', pSteps');
      rs, rSteps := Joined(R.Next, rs, rSteps, rs', rSteps');
    }
  }

  lemma MirroredTokens(s: Site, m: P.State, w: R.State, n: nat)
    requires Mirrors(s, m, w, n)
    ensures w.tokens == s.tokens && n !in w.exchanges
  {}

  // --- What that says of the connector ----------------------------------------------

  /** However many requests are made, a refresh token is answered with a replacement at most once. */
  lemma ReplacedAtMostOnce(safe: string -> bool, allowed: set<string>, sites: seq<Site>, requests: seq<Request>, i: nat,
                           j: nat)
    requires History(safe, allowed, sites, requests) && i < j < |requests|
    requires requests[i].Rotate? && requests[j].Rotate? && requests[i].presented == requests[j].presented != ""
    ensures T.IdentityKept(sites[i].tokens) && T.IdentityKept(sites[j].tokens)
    ensures AnswerTo(sites[i], requests[i]).Issued? ==> !AnswerTo(sites[j], requests[j]).Issued?
  {
    hide Handles, Mirrors, T.IdentityKept, T.AfterRotation, R.Next, P.Next;
    var _, _, rs, rSteps := HistoryIsARun(safe, allowed, sites, requests, j + 1);
    var w := rs[|rs| - 1];
    assert T.IdentityKept(sites[i].tokens) && T.IdentityKept(sites[j].tokens);
    if AnswerTo(sites[i], requests[i]).Issued? && AnswerTo(sites[j], requests[j]).Issued? {
      RR.OneExchangeReplaces(rs, rSteps, allowed, |rs| - 1, i, j);
    }
  }

  /** Once a replaced token is presented again, what it was replaced with is gone, at every later time. */
  lemma ReuseRevokes(safe: string -> bool, allowed: set<string>, sites: seq<Site>, requests: seq<Request>, i: nat,
                     j: nat, n: nat)
    requires History(safe, allowed, sites, requests) && i < n <= |requests| && j < n
    requires requests[i].Rotate? && requests[j].Rotate? && requests[i].presented == requests[j].presented != ""
    ensures T.IdentityKept(sites[i].tokens) && T.IdentityKept(sites[j].tokens)
    ensures AnswerTo(sites[i], requests[i]) == T.Issued(requests[i].token)
            && AnswerTo(sites[j], requests[j]) == T.Reused ==>
              Digest(requests[i].token) !in sites[n].tokens
  {
    hide Handles, T.IdentityKept, T.AfterRotation, R.Next, P.Next;
    var ps, _, rs, rSteps := HistoryIsARun(safe, allowed, sites, requests, n);
    var w := rs[|rs| - 1];
    assert T.IdentityKept(sites[i].tokens) && T.IdentityKept(sites[j].tokens);
    MirroredTokens(sites[n], ps[|ps| - 1], w, n);
    hide Mirrors;
    if AnswerTo(sites[i], requests[i]) == T.Issued(requests[i].token) && AnswerTo(sites[j], requests[j]) == T.Reused {
      RR.ReuseEndsTheReplacement(rs, rSteps, allowed, |rs| - 1, i, j);
    }
  }

  /**
   * Every refresh token row goes back to one authorize request: it carries that request's client and
   * scope, and while unconsumed the account Google named for it; whoever began its family presented
   * that request's redirect URI and the verifier of its challenge; and no other family goes back to
   * the same request.
   */
  lemma EveryTokenHasASignIn(safe: string -> bool, allowed: set<string>, sites: seq<Site>, requests: seq<Request>,
                             n: nat, k: StoredKey)
    returns (ps: seq<P.State>, pSteps: seq<P.Step>, request: nat)
    requires History(safe, allowed, sites, requests) && n <= |requests| && k in sites[n].tokens
    ensures P.Run(ps, pSteps)
    ensures var m, row := ps[|ps| - 1], sites[n].tokens[k];
            && m.sessions == sites[n].sessions && m.codes == sites[n].codes
            && P.BegunBy(m, row.values.family, request)
            && var asked, origin := m.trail.requests[request], m.families[row.values.family];
            && row.values.client == asked.client && row.values.scope == asked.scope
            && asked.redirectUri == origin.redirectUri
            && asked.challenge == P.S256(origin.verifier) && origin.verifier != ""
            && (row.values.consumedAt.None? ==>
                  row.values.subject == Some(origin.grant.subject) && row.values.email == Some(origin.grant.email))
            && forall other :: other in m.families && P.BegunBy(m, other, request) ==> other == row.values.family
  {
    hide Handles, R.Next, P.Next;
    var rs, rSteps;
    ps, pSteps, rs, rSteps := HistoryIsARun(safe, allowed, sites, requests, n);
    var m, w, row := ps[|ps| - 1], rs[|rs| - 1], sites[n].tokens[k];
    RR.RowsAreSafe(rs, rSteps, allowed, |rs| - 1, k);
    assert row.values.family in m.families && SameFamily(w.families[row.values.family], m.families[row.values.family]);
    hide Mirrors;
    P.FamilyTracesToOneRequest(ps, pSteps, |ps| - 1, row.values.family);
    request := m.trail.sessionOf[m.trail.codeOf[m.families[row.values.family].code]];
  }
}
