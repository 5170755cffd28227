/**
 * Over any history of the connector, what each request was answered and why: who is registered as
 * what, what was asked for, to whom a code went, and what every token goes back to.
 */
module ConnectorAnswers {
  import opened Prelude
  import opened OauthState
  import opened Registrations
  import opened Connector
  import opened TokenAnswers
  import A = SignInAnswers
  import E = SignInEndpoint
  import P = SignIn
  import R = Rotation
  import T = TokenEndpoint

  // --- Clients ----------------------------------------------------------------------

  /** A client a request leaves was there before with the same metadata, or is the one it registers. */
  lemma ClientsAfter(safe: string -> bool, s: Site, r: Request, t: Site, k: StoredKey)
    requires Handles(safe, s, r, t) && T.IdentityKept(s.tokens) && k in t.clients
    ensures || (&& k in s.clients && t.clients[k].values == s.clients[k].values
                && t.clients[k].expiresAt >= s.clients[k].expiresAt)
            || (&& r.Register? && k == Plain(r.id) && (r.authMethod == "none" || r.authMethod == "client_secret_post")
                && (forall i :: 0 <= i < |r.redirectUris| ==> safe(r.redirectUris[i]))
                && t.clients[k] == Row(Client(r.authMethod == "none", Digest(r.secret), r.redirectUris), r.now + 3600))
  {
    hide E.RegistrationRefusal, Stored, E.AfterCallback, T.AfterRedemption, T.AfterRotation, Room, OneTaken;
    hide FamilyGone, Replaced, T.IdentityKept, AuthorizeRefusal, E.RequestRefusal;
    match r
    case Register(id, authMethod, redirectUris, secret, now) =>
      A.RegisterAnswers(authMethod, redirectUris, safe);
      if E.RegistrationRefusal(authMethod, redirectUris, safe).None? {
        StoredOnlyAdds(s.clients, Plain(id), Row(Client(authMethod == "none", Digest(secret), redirectUris),
                                                 now + UNUSED_CLIENT_TTL), MAX_CLIENTS, now, t.clients);
      }
    case Redeem(presented, redirectUri, id, secret, verifier, token, family, at) =>
      CodeLeaves(s.TokenStores(), s.allowed, presented, redirectUri, id, secret, verifier, token, family, at);
    case Rotate(presented, id, secret, token, at) =>
      RefreshLeaves(s.TokenStores(), s.allowed, presented, id, secret, token, at);
    case _ =>
  }

  /** Before every request of a history, redeemable tokens name an account and consumed ones none. */
  lemma IdentityBefore(safe: string -> bool, allowed: set<string>, sites: seq<Site>, requests: seq<Request>, n: nat)
    requires History(safe, allowed, sites, requests) && n <= |requests|
    ensures T.IdentityKept(sites[n].tokens)
  {
    hide Handles, Mirrors, R.Next, P.Next, T.IdentityKept;
    var ps, pSteps, rs, rSteps := HistoryIsARun(safe, allowed, sites, requests, n);
    R.ReachableInv(rs, rSteps, allowed, |rs| - 1);
    IdentityFollows(rs[|rs| - 1]);
    MirroredTokens(sites[n], ps[|ps| - 1], rs[|rs| - 1], n);
  }

  lemma {:induction false} DrawnStays(safe: string -> bool, allowed: set<string>, sites: seq<Site>,
                                      requests: seq<Request>, i: nat, j: nat)
    requires History(safe, allowed, sites, requests) && i <= j <= |requests|
    ensures sites[i].drawn <= sites[j].drawn
    decreases j
  {
    hide Handles, T.IdentityKept;
    if i < j {
      DrawnStays(safe, allowed, sites, requests, i, j - 1);
      IdentityBefore(safe, allowed, sites, requests, j - 1);
      DrawnGrows(safe, sites[j - 1], requests[j - 1], sites[j]);
    }
  }

  lemma DrawnGrows(safe: string -> bool, s: Site, r: Request, t: Site)
    requires Handles(safe, s, r, t) && T.IdentityKept(s.tokens)
    ensures s.drawn <= t.drawn
  {
    hide Stored, T.IdentityKept, E.AfterCallback, T.AfterRotation, T.AfterRedemption, E.RegistrationRefusal,
        E.RequestRefusal, AuthorizeRefusal, Purged;
  }

  /** The client is as the request made before the n-th registered it. */
  ghost predicate RegisteredBy(safe: string -> bool, requests: seq<Request>, i: nat, k: StoredKey, client: Client)
    requires i < |requests|
  {
    && requests[i].Register? && k == Plain(requests[i].id)
    && (requests[i].authMethod == "none" || requests[i].authMethod == "client_secret_post")
    && (forall j :: 0 <= j < |requests[i].redirectUris| ==> safe(requests[i].redirectUris[j]))
    && client == Client(requests[i].authMethod == "none", Digest(requests[i].secret), requests[i].redirectUris)
  }

  /**
   * Every client stored is as one register request made it, which had a known method and safe
   * redirect URIs, and has an hour from then at least.
   */
  lemma {:induction false} EveryClientWasRegistered(safe: string -> bool, allowed: set<string>, sites: seq<Site>,
                                                    requests: seq<Request>, n: nat, k: StoredKey)
    returns (i: nat)
    requires History(safe, allowed, sites, requests) && n <= |requests| && k in sites[n].clients
    ensures i < n && RegisteredBy(safe, requests, i, k, sites[n].clients[k].values)
    ensures sites[n].clients[k].expiresAt >= requests[i].now + 3600
  {
    hide Handles, T.IdentityKept;
    var q := n - 1;
    IdentityBefore(safe, allowed, sites, requests, q);
    assert Handles(safe, sites[q], requests[q], sites[n]);
    ClientsAfter(safe, sites[q], requests[q], sites[n], k);
    if k in sites[q].clients && sites[n].clients[k].values == sites[q].clients[k].values
       && sites[n].clients[k].expiresAt >= sites[q].clients[k].expiresAt {
      i := EveryClientWasRegistered(safe, allowed, sites, requests, q, k);
    } else {
      i := q;
    }
  }

  /** A registration's values never change: while it is stored, it is what its register request gave. */
  lemma ClientsAreAsRegistered(safe: string -> bool, allowed: set<string>, sites: seq<Site>, requests: seq<Request>,
                               i: nat, n: nat)
    requires History(safe, allowed, sites, requests) && i < n <= |requests| && requests[i].Register?
    ensures Plain(requests[i].id) in sites[n].clients ==>
              RegisteredBy(safe, requests, i, Plain(requests[i].id), sites[n].clients[Plain(requests[i].id)].values)
  {
    if Plain(requests[i].id) in sites[n].clients {
      var j := EveryClientWasRegistered(safe, allowed, sites, requests, n, Plain(requests[i].id));
      assert Handles(safe, sites[i], requests[i], sites[i + 1]) && Handles(safe, sites[j], requests[j], sites[j + 1]);
      hide Stored;
      if i < j {
        DrawnStays(safe, allowed, sites, requests, i + 1, j);
      } else if j < i {
        DrawnStays(safe, allowed, sites, requests, j + 1, i);
      }
    }
  }

  /** The client the request presents is stored, and the secret is not the one it was registered with. */
  predicate Impostor(registered: Request, secret: string)
    requires registered.Register?
  {
    registered.authMethod != "none" && (secret == "" || secret != registered.secret)
  }

  /**
   * Whoever presents a grant of its client is refused as the wrong client exactly if that client's
   * registration is not stored and unexpired, or it registered with a secret and another, or none,
   * is presented: at either exchange, at any time after it registered.
   */
  lemma SecretDecides(safe: string -> bool, allowed: set<string>, sites: seq<Site>, requests: seq<Request>, i: nat,
                      j: nat)
    requires History(safe, allowed, sites, requests) && i < j < |requests| && requests[i].Register?
    ensures T.IdentityKept(sites[j].tokens)
    ensures var s, r, client := sites[j], requests[j], Plain(requests[i].id);
            r.Rotate? && r.id == requests[i].id && HasToken(s.TokenStores(), r.presented, r.id, r.at) ==>
              (AnswerTo(s, r) == T.InvalidClient <==>
               !Live(s.clients, client, r.at.client) || Impostor(requests[i], r.secret))
    ensures var s, r, client := sites[j], requests[j], Plain(requests[i].id);
            r.Redeem? && r.id == requests[i].id && HasCode(s.TokenStores(), r.presented, r.id, r.at) ==>
              (T.AfterRedemption(s.TokenStores(), s.allowed, r.presented, r.redirectUri, r.id, r.secret, r.verifier,
                                 r.token, r.family, r.at).1 == T.InvalidClient <==>
               !Live(s.clients, client, r.at.client) || Impostor(requests[i], r.secret))
  {
    var s, r := sites[j], requests[j];
    IdentityBefore(safe, allowed, sites, requests, j);
    ClientsAreAsRegistered(safe, allowed, sites, requests, i, j);
    assert Handles(safe, s, r, sites[j + 1]);
    hide T.AfterRotation, T.AfterRedemption, T.IdentityKept, Stored;
    if r.Rotate? {
      RefreshRefusals(s.TokenStores(), s.allowed, r.presented, r.id, r.secret, r.token, r.at);
    } else if r.Redeem? {
      CodeRefusals(s.TokenStores(), s.allowed, r.presented, r.redirectUri, r.id, r.secret, r.verifier, r.token,
                   r.family, r.at);
    }
  }

  // --- From what was asked for to what is stored --------------------------------------

  /** A session a request leaves was there before, or is what an accepted authorize request asked for. */
  lemma SessionsAfter(safe: string -> bool, s: Site, r: Request, t: Site, k: StoredKey)
    requires Handles(safe, s, r, t) && T.IdentityKept(s.tokens) && k in t.sessions
    ensures || (k in s.sessions && t.sessions[k] == s.sessions[k])
            || (&& r.Authorize? && k == Plain(r.state) && AuthorizeRefusal(s, r, safe) == None
                && t.sessions[k] == Row(r.request, r.now + 600))
  {
    hide Stored, AuthorizeRefusal, E.RequestRefusal, E.RegistrationRefusal, Purged, T.IdentityKept, E.AfterCallback,
        T.AfterRedemption, T.AfterRotation;
    match r
    case Authorize(_, request, _, state, _, now) =>
      if AuthorizeRefusal(s, r, safe).None? {
        StoredOnlyAdds(s.sessions, Plain(state), Row(request, now + P.SESSION_TTL), P.MAX_ENTRIES, now, t.sessions);
      }
    case Callback(state, cookie, google, code, at) =>
      A.CallbackLeaves(s.SignInStores(), state, cookie, google, s.allowed, code, at);
    case _ =>
  }

  /** Every web sign-in waited for was started by one request of a configured deploy, and waits ten minutes. */
  lemma {:induction false} EveryWebSignInWasStarted(safe: string -> bool, allowed: set<string>, sites: seq<Site>,
                                                    requests: seq<Request>, n: nat, k: StoredKey) returns (i: nat)
    requires History(safe, allowed, sites, requests) && n <= |requests| && k in sites[n].web
    ensures i < n && requests[i].StartWebSignIn? && requests[i].configured && k == Plain(requests[i].state)
    ensures sites[n].web[k].expiresAt == requests[i].now + 600
  {
    hide Handles, T.IdentityKept;
    var q := n - 1;
    IdentityBefore(safe, allowed, sites, requests, q);
    assert Handles(safe, sites[q], requests[q], sites[n]);
    WebAfter(safe, sites[q], requests[q], sites[n], k);
    if k in sites[q].web && sites[n].web[k] == sites[q].web[k] {
      i := EveryWebSignInWasStarted(safe, allowed, sites, requests, q, k);
    } else {
      i := q;
    }
  }

  lemma WebAfter(safe: string -> bool, s: Site, r: Request, t: Site, k: StoredKey)
    requires Handles(safe, s, r, t) && T.IdentityKept(s.tokens) && k in t.web
    ensures || (k in s.web && t.web[k] == s.web[k])
            || (r.StartWebSignIn? && r.configured && k == Plain(r.state) && t.web[k] == Row((), r.now + 600))
  {
    hide Stored, AuthorizeRefusal, E.RequestRefusal, E.RegistrationRefusal, Purged, T.IdentityKept, E.AfterCallback,
        T.AfterRedemption, T.AfterRotation;
    match r
    case StartWebSignIn(configured, state, now) =>
      if configured {
        StoredOnlyAdds(s.web, Plain(state), Row((), now + E.WEB_SIGN_IN_TTL), P.MAX_ENTRIES, now, t.web);
      }
    case Callback(state, cookie, google, code, at) =>
      A.CallbackLeaves(s.SignInStores(), state, cookie, google, s.allowed, code, at);
    case _ =>
  }

  /** A code a request leaves was there before, or is what a callback delivered. */
  lemma CodesAfter(safe: string -> bool, s: Site, r: Request, t: Site, k: StoredKey)
    requires Handles(safe, s, r, t) && T.IdentityKept(s.tokens) && k in t.codes
    ensures || (k in s.codes && t.codes[k] == s.codes[k])
            || (&& r.Callback? && k == Digest(r.code) && A.Approved(s.SignInStores(), r.state, r.cookie, r.readAt)
                && r.google.SignedIn? && r.google.email in s.allowed
                && t.codes[k] == Row(P.Code(s.sessions[Plain(r.state)].values, r.google.subject, r.google.email),
                                     r.readAt.code + 60))
  {
    hide Stored, AuthorizeRefusal, E.RequestRefusal, E.RegistrationRefusal, Purged, T.IdentityKept, E.AfterCallback,
        T.AfterRedemption, T.AfterRotation, Room;
    match r
    case Callback(state, cookie, google, code, at) =>
      var reply := E.AfterCallback(s.SignInStores(), state, cookie, google, s.allowed, code, at).1;
      A.CallbackLeaves(s.SignInStores(), state, cookie, google, s.allowed, code, at);
      A.McpAnswers(s.SignInStores(), state, cookie, google, s.allowed, code, at);
      assert reply.CodeDelivered? ==> reply == E.CodeDelivered(reply.redirectUri, reply.state, reply.code);
      hide OneTaken;
    case Redeem(presented, redirectUri, id, secret, verifier, token, family, at) =>
      CodeLeaves(s.TokenStores(), s.allowed, presented, redirectUri, id, secret, verifier, token, family, at);
      hide MovedTo;
    case Rotate(presented, id, secret, token, at) =>
      RefreshLeaves(s.TokenStores(), s.allowed, presented, id, secret, token, at);
    case _ =>
  }

  /** The session's request is what the i-th request asked for, of a client then registered with its redirect URI. */
  ghost predicate AskedBy(safe: string -> bool, sites: seq<Site>, requests: seq<Request>, i: nat, session: StoredKey,
                          asked: P.Request)
    requires i < |requests| < |sites|
  {
    && requests[i].Authorize? && session == Plain(requests[i].state) && asked == requests[i].request
    && A.WellFormed(asked, requests[i].responseType, requests[i].configured)
    && Live(sites[i].clients, Plain(asked.client), requests[i].lookedUpAt)
    && asked.redirectUri in sites[i].clients[Plain(asked.client)].values.redirectUris && safe(asked.redirectUri)
  }

  /**
   * Every session waits for what one authorize request asked for, well-formed and of a client then
   * registered, for ten minutes.
   */
  lemma {:induction false} EverySessionWasAsked(safe: string -> bool, allowed: set<string>, sites: seq<Site>,
                                                requests: seq<Request>, n: nat, k: StoredKey) returns (i: nat)
    requires History(safe, allowed, sites, requests) && n <= |requests| && k in sites[n].sessions
    ensures i < n && AskedBy(safe, sites, requests, i, k, sites[n].sessions[k].values)
    ensures sites[n].sessions[k].expiresAt == requests[i].now + 600
  {
    hide Handles, T.IdentityKept, AuthorizeRefusal;
    var q := n - 1;
    var s, r := sites[q], requests[q];
    IdentityBefore(safe, allowed, sites, requests, q);
    assert Handles(safe, s, r, sites[n]);
    SessionsAfter(safe, s, r, sites[n], k);
    if k in s.sessions && sites[n].sessions[k] == s.sessions[k] {
      i := EverySessionWasAsked(safe, allowed, sites, requests, q, k);
    } else {
      i := q;
      AcceptedWasWellFormed(s, r, safe);
    }
  }

  lemma AcceptedWasWellFormed(s: Site, r: Request, safe: string -> bool)
    requires r.Authorize? && AuthorizeRefusal(s, r, safe) == None
    ensures A.WellFormed(r.request, r.responseType, r.configured) && safe(r.request.redirectUri)
    ensures Live(s.clients, Plain(r.request.client), r.lookedUpAt)
            && r.request.redirectUri in s.clients[Plain(r.request.client)].values.redirectUris
  {
    A.AuthorizeAnswers(s.clients, r.request, r.responseType, r.configured, safe, r.lookedUpAt);
    hide E.AuthorizeRefusal;
  }

  /** The code was delivered by the j-th request, for the account Google named and what the i-th asked for. */
  ghost predicate DeliveredBy(safe: string -> bool, sites: seq<Site>, requests: seq<Request>, i: nat, j: nat,
                              code: StoredKey, grant: P.Code)
    requires i < j < |requests| < |sites|
  {
    && requests[j].Callback? && code == Digest(requests[j].code) && requests[j].cookie == Some(requests[j].state)
    && requests[j].google == E.SignedIn(grant.subject, grant.email) && grant.email in sites[j].allowed
    && AskedBy(safe, sites, requests, i, Plain(requests[j].state), grant.request)
  }

  /**
   * Every code was made by one callback, in the browser that approved, for an account Google named
   * that was allowed, and for exactly what one authorize request asked for; it lasts a minute.
   */
  lemma {:induction false} EveryCodeWasDelivered(safe: string -> bool, allowed: set<string>, sites: seq<Site>,
                                                 requests: seq<Request>, n: nat, k: StoredKey)
    returns (i: nat, j: nat)
    requires History(safe, allowed, sites, requests) && n <= |requests| && k in sites[n].codes
    ensures i < j < n && DeliveredBy(safe, sites, requests, i, j, k, sites[n].codes[k].values)
    ensures sites[n].codes[k].expiresAt == requests[j].readAt.code + 60
  {
    hide Handles, T.IdentityKept;
    var q := n - 1;
    var s, r := sites[q], requests[q];
    IdentityBefore(safe, allowed, sites, requests, q);
    assert Handles(safe, s, r, sites[n]);
    CodesAfter(safe, s, r, sites[n], k);
    hide AskedBy;
    if k in s.codes && sites[n].codes[k] == s.codes[k] {
      i, j := EveryCodeWasDelivered(safe, allowed, sites, requests, q, k);
    } else {
      j := q;
      i := EverySessionWasAsked(safe, allowed, sites, requests, q, Plain(r.state));
    }
  }

  /**
   * A browser is only ever sent on to the redirect URI its client asked for, with that client's own
   * state, whether with a code or as denied; and that URI the client had registered.
   */
  lemma SentWhereAsked(safe: string -> bool, allowed: set<string>, sites: seq<Site>, requests: seq<Request>, j: nat)
    returns (i: nat)
    requires History(safe, allowed, sites, requests) && j < |requests| && requests[j].Callback?
    requires var r := requests[j];
             var reply := E.AfterCallback(sites[j].SignInStores(), r.state, r.cookie, r.google, sites[j].allowed,
                                          r.code, r.readAt).1;
             reply.CodeDelivered? || reply.AccessDenied?
    ensures var r := requests[j];
            var reply := E.AfterCallback(sites[j].SignInStores(), r.state, r.cookie, r.google, sites[j].allowed, r.code,
                                         r.readAt).1;
            && i < j && r.cookie == Some(r.state)
            && requests[i].Authorize?
            && AskedBy(safe, sites, requests, i, Plain(r.state), requests[i].request)
            && reply.redirectUri == requests[i].request.redirectUri && reply.state == requests[i].request.state
  {
    var r, s := requests[j], sites[j].SignInStores();
    var reply := E.AfterCallback(s, r.state, r.cookie, r.google, sites[j].allowed, r.code, r.readAt).1;
    A.McpAnswers(s, r.state, r.cookie, r.google, sites[j].allowed, r.code, r.readAt);
    hide E.AfterCallback, Room, Handles;
    assert reply.CodeDelivered? ==> reply == E.CodeDelivered(reply.redirectUri, reply.state, reply.code);
    assert reply.AccessDenied? ==> reply == E.AccessDenied(reply.redirectUri, reply.state);
    i := EverySessionWasAsked(safe, allowed, sites, requests, j, Plain(r.state));
  }

  // --- What a token goes back to ----------------------------------------------------

  /** The same grant, consumed or not: what the code exchange fixed is still there. */
  predicate Carries(row: Row<Refresh>, earlier: Row<Refresh>) {
    && row.expiresAt == earlier.expiresAt
    && row.values.client == earlier.values.client && row.values.scope == earlier.values.scope
    && row.values.family == earlier.values.family
    && (row.values.consumedAt.None? ==> row == earlier)
  }

  /** A token row a request leaves was there before, or is what an exchange was answered with. */
  lemma TokensAfter(safe: string -> bool, s: Site, r: Request, t: Site, k: StoredKey)
    requires Handles(safe, s, r, t) && T.IdentityKept(s.tokens) && k in t.tokens
    ensures || (k in s.tokens && Carries(t.tokens[k], s.tokens[k]))
            || (r.Rotate? && Digest(r.presented) in s.tokens && t.tokens[k] == s.tokens[Digest(r.presented)])
            || (&& r.Redeem?
                && Redeems(s.TokenStores(), r.presented, r.redirectUri, r.id, r.secret, r.verifier, r.at)
                && var code := s.codes[Digest(r.presented)].values;
                t.tokens[k] == Row(Refresh(Some(code.subject), Some(code.email), r.id, code.request.scope, r.family,
                                           None), r.at.issue + 2_592_000))
  {
    hide Stored, AuthorizeRefusal, E.RequestRefusal, E.RegistrationRefusal, Purged, T.IdentityKept, E.AfterCallback,
        T.AfterRedemption, T.AfterRotation, Room;
    match r
    case Redeem(presented, redirectUri, id, secret, verifier, token, family, at) =>
      CodeLeaves(s.TokenStores(), s.allowed, presented, redirectUri, id, secret, verifier, token, family, at);
      CodeRefusals(s.TokenStores(), s.allowed, presented, redirectUri, id, secret, verifier, token, family, at);
      hide MovedTo, OneTaken, OnlyExpiredGone;
    case Rotate(presented, id, secret, token, at) =>
      RotateTokensAfter(safe, s, r, t, k);
    case _ =>
  }

  lemma RotateTokensAfter(safe: string -> bool, s: Site, r: Request, t: Site, k: StoredKey)
    requires r.Rotate? && Handles(safe, s, r, t) && T.IdentityKept(s.tokens) && k in t.tokens
    ensures || (k in s.tokens && Carries(t.tokens[k], s.tokens[k]))
            || (Digest(r.presented) in s.tokens && t.tokens[k] == s.tokens[Digest(r.presented)])
  {
    RefreshLeaves(s.TokenStores(), s.allowed, r.presented, r.id, r.secret, r.token, r.at);
    hide T.AfterRotation, Room, MovedTo, T.IdentityKept;
  }

  /**
   * The m-th request exchanged the code that the j-th delivered for what the i-th asked: with its
   * redirect URI, its client's secret and the verifier of its challenge; and the row is of the
   * family it began, with that request's client and scope and that code's account, for thirty days.
   */
  ghost predicate BegunBy(safe: string -> bool, sites: seq<Site>, requests: seq<Request>, i: nat, j: nat, m: nat,
                          row: Row<Refresh>)
    requires i < j < m < |requests| < |sites|
  {
    && requests[m].Redeem?
    && var r, s := requests[m], sites[m];
    && Redeems(s.TokenStores(), r.presented, r.redirectUri, r.id, r.secret, r.verifier, r.at)
    && var code := s.codes[Digest(r.presented)].values;
    && DeliveredBy(safe, sites, requests, i, j, Digest(r.presented), code)
    && row.values.family == r.family && row.expiresAt == r.at.issue + 2_592_000
    && row.values.client == code.request.client && row.values.scope == code.request.scope
    && (row.values.consumedAt.None? ==>
          row.values.subject == Some(code.subject) && row.values.email == Some(code.email))
  }

  lemma CarriedBack(safe: string -> bool, sites: seq<Site>, requests: seq<Request>, i: nat, j: nat, m: nat,
                    earlier: Row<Refresh>, row: Row<Refresh>)
    requires i < j < m < |requests| < |sites| && BegunBy(safe, sites, requests, i, j, m, earlier)
    requires Carries(row, earlier)
    ensures BegunBy(safe, sites, requests, i, j, m, row)
  {
    hide DeliveredBy, Redeems;
  }

  /**
   * Every refresh token stored goes back, through its replacements, to one code exchange, one
   * callback and one authorize request of the history, in that order.
   */
  lemma {:induction false} EveryTokenGoesBack(safe: string -> bool, allowed: set<string>, sites: seq<Site>,
                                              requests: seq<Request>, n: nat, k: StoredKey)
    returns (i: nat, j: nat, m: nat)
    requires History(safe, allowed, sites, requests) && n <= |requests| && k in sites[n].tokens
    ensures i < j < m < n && BegunBy(safe, sites, requests, i, j, m, sites[n].tokens[k])
  {
    hide Handles, T.IdentityKept, DeliveredBy, BegunBy;
    var q := n - 1;
    var s, r, row := sites[q], requests[q], sites[n].tokens[k];
    IdentityBefore(safe, allowed, sites, requests, q);
    assert Handles(safe, s, r, sites[n]);
    TokensAfter(safe, s, r, sites[n], k);
    if k in s.tokens && Carries(row, s.tokens[k]) {
      i, j, m := EveryTokenGoesBack(safe, allowed, sites, requests, q, k);
      CarriedBack(safe, sites, requests, i, j, m, s.tokens[k], row);
    } else if r.Rotate? {
      i, j, m := EveryTokenGoesBack(safe, allowed, sites, requests, q, Digest(r.presented));
    } else {
      i, j := EveryCodeWasDelivered(safe, allowed, sites, requests, q, Digest(r.presented));
      m := q;
      IssuedGoesBack(safe, sites, requests, i, j, m, row);
    }
  }

  lemma IssuedGoesBack(safe: string -> bool, sites: seq<Site>, requests: seq<Request>, i: nat, j: nat, m: nat,
                       row: Row<Refresh>)
    requires i < j < m < |requests| < |sites| && requests[m].Redeem?
    requires var r, s := requests[m], sites[m];
             && Redeems(s.TokenStores(), r.presented, r.redirectUri, r.id, r.secret, r.verifier, r.at)
             && var code := s.codes[Digest(r.presented)].values;
             && DeliveredBy(safe, sites, requests, i, j, Digest(r.presented), code)
             && row == Row(Refresh(Some(code.subject), Some(code.email), r.id, code.request.scope, r.family, None),
                           r.at.issue + 2_592_000)
    ensures BegunBy(safe, sites, requests, i, j, m, row)
  {
    hide DeliveredBy;
  }

  // --- How much is ever stored ------------------------------------------------------

  /** A hundred registrations at most, and ten thousand of everything else. */
  ghost predicate Capped(s: Site) {
    && |s.clients| <= 100
    && |s.web| <= 10_000 && |s.sessions| <= 10_000 && |s.codes| <= 10_000 && |s.tokens| <= 10_000
  }

  lemma NoMoreRows<V>(before: Rows<V>, after: Rows<V>)
    requires after.Keys <= before.Keys
    ensures |after| <= |before|
  {
    SubsetCardinality(after.Keys, before.Keys);
    assert |after.Keys| == |after| && |before.Keys| == |before|;
  }

  lemma OneMoreRow<V(!new)>(before: Rows<V>, after: Rows<V>, key: StoredKey, now: Time)
    requires Room(before, key, now) && forall k :: k in after <==> k == key || Live(before, k, now)
    ensures |after| <= 10_000
  {
    var others := set k | k in before && k != key && before[k].expiresAt > now;
    assert after.Keys == others + {key};
    assert |after.Keys| == |after|;
  }

  lemma StaysCapped(safe: string -> bool, s: Site, r: Request, t: Site)
    requires Handles(safe, s, r, t) && T.IdentityKept(s.tokens) && Capped(s)
    ensures Capped(t)
  {
    hide E.RegistrationRefusal, Stored, E.AfterCallback, T.AfterRedemption, T.AfterRotation, T.IdentityKept;
    hide AuthorizeRefusal, E.RequestRefusal;
    match r
    case Register(id, authMethod, redirectUris, secret, now) =>
      if E.RegistrationRefusal(authMethod, redirectUris, safe).None? {
        StoredKeepsCap(s.clients, Plain(id), Row(Client(authMethod == "none", Digest(secret), redirectUris),
                                                 now + UNUSED_CLIENT_TTL), MAX_CLIENTS, now, t.clients);
      }
    case StartWebSignIn(configured, state, now) =>
      if configured {
        StoredKeepsCap(s.web, Plain(state), Row((), now + E.WEB_SIGN_IN_TTL), P.MAX_ENTRIES, now, t.web);
      }
    case Authorize(_, request, _, state, _, now) =>
      NoMoreRows(s.clients, t.clients);
      if AuthorizeRefusal(s, r, safe).None? {
        StoredKeepsCap(s.sessions, Plain(state), Row(request, now + P.SESSION_TTL), P.MAX_ENTRIES, now, t.sessions);
      }
    case Callback(state, cookie, google, code, at) =>
      CallbackStaysCapped(safe, s, r, t);
    case Redeem(presented, redirectUri, id, secret, verifier, token, family, at) =>
      RedeemStaysCapped(safe, s, r, t);
    case Rotate(presented, id, secret, token, at) =>
      RotateStaysCapped(safe, s, r, t);
    case Allow(_, _) =>
  }

  lemma CallbackStaysCapped(safe: string -> bool, s: Site, r: Request, t: Site)
    requires r.Callback? && Handles(safe, s, r, t) && Capped(s)
    ensures Capped(t)
  {
    var stores := s.SignInStores();
    var reply := E.AfterCallback(stores, r.state, r.cookie, r.google, s.allowed, r.code, r.readAt).1;
    A.CallbackLeaves(stores, r.state, r.cookie, r.google, s.allowed, r.code, r.readAt);
    A.McpAnswers(stores, r.state, r.cookie, r.google, s.allowed, r.code, r.readAt);
    assert reply.CodeDelivered? ==> reply == E.CodeDelivered(reply.redirectUri, reply.state, reply.code);
    hide E.AfterCallback, Room;
    NoMoreRows(s.web, t.web);
    NoMoreRows(s.sessions, t.sessions);
    if reply.CodeDelivered? {
      OneMoreRow(s.codes, t.codes, Digest(r.code), r.readAt.code);
    }
  }

  lemma RedeemStaysCapped(safe: string -> bool, s: Site, r: Request, t: Site)
    requires r.Redeem? && Handles(safe, s, r, t) && Capped(s)
    ensures Capped(t)
  {
    var stores := s.TokenStores();
    var answer := T.AfterRedemption(stores, s.allowed, r.presented, r.redirectUri, r.id, r.secret, r.verifier, r.token,
                                    r.family, r.at).1;
    CodeLeaves(stores, s.allowed, r.presented, r.redirectUri, r.id, r.secret, r.verifier, r.token, r.family, r.at);
    CodeRefusals(stores, s.allowed, r.presented, r.redirectUri, r.id, r.secret, r.verifier, r.token, r.family, r.at);
    hide T.AfterRedemption, Room;
    NoMoreRows(s.clients, t.clients);
    NoMoreRows(s.codes, t.codes);
    if answer.Issued? {
      CodeOutcomes(stores, s.allowed, r.presented, r.redirectUri, r.id, r.secret, r.verifier, r.token, r.family, r.at);
      OneMoreRow(s.tokens, t.tokens, Digest(r.token), r.at.issue);
    } else {
      NoMoreRows(s.tokens, t.tokens);
    }
  }

  lemma RotateStaysCapped(safe: string -> bool, s: Site, r: Request, t: Site)
    requires r.Rotate? && Handles(safe, s, r, t) && T.IdentityKept(s.tokens) && Capped(s)
    ensures Capped(t)
  {
    var stores := s.TokenStores();
    var answer := T.AfterRotation(stores, s.allowed, r.presented, r.id, r.secret, r.token, r.at).1;
    RefreshLeaves(stores, s.allowed, r.presented, r.id, r.secret, r.token, r.at);
    RefreshRefusals(stores, s.allowed, r.presented, r.id, r.secret, r.token, r.at);
    hide T.AfterRotation, Room, T.IdentityKept;
    NoMoreRows(s.clients, t.clients);
    if answer.Issued? {
      RefreshOutcomes(stores, s.allowed, r.presented, r.id, r.secret, r.token, r.at);
      OneMoreRow(s.tokens, t.tokens, Digest(r.token), r.at.issue);
    } else {
      NoMoreRows(s.tokens, t.tokens);
    }
  }

  /** Whatever is asked of it, the connector never stores more than its caps. */
  lemma {:induction false} StoresStayCapped(safe: string -> bool, allowed: set<string>, sites: seq<Site>,
                                            requests: seq<Request>, n: nat)
    requires History(safe, allowed, sites, requests) && n <= |requests|
    ensures Capped(sites[n])
  {
    hide Handles, T.IdentityKept;
    if n > 0 {
      StoresStayCapped(safe, allowed, sites, requests, n - 1);
      IdentityBefore(safe, allowed, sites, requests, n - 1);
      hide Capped;
      StaysCapped(safe, sites[n - 1], requests[n - 1], sites[n]);
    }
  }
}
