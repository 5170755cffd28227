/**
 * Exactly when the requests that lead to a code are answered how, and what they leave
 * (backend/mcp_oauth.py and backend/auth.py), read off the rows they find.
 */
module SignInAnswers {
  import opened Prelude
  import opened OauthState
  import opened Registrations
  import opened SignInEndpoint
  import opened TokenAnswers
  import P = SignIn
  import EP = SignInEndpointProofs
  import T = TokenEndpoint
  import TP = TokenEndpointProofs

  // --- The callback ---------------------------------------------------------------

  /** The state names no web sign-in, but an MCP one, and the browser is the one that approved it. */
  predicate Approved(s: Stores, state: string, cookie: Option<string>, at: Readings) {
    !Live(s.web, Plain(state), at.web) && Live(s.sessions, Plain(state), at.session) && cookie == Some(state)
  }

  /**
   * What a web sign-in is answered, exactly: the person signed in if the account is allowed, or the
   * sign-in view with what was wrong.
   */
  lemma WebAnswers(s: Stores, state: string, cookie: Option<string>, google: Google, allowed: set<string>,
                   code: string, at: Readings)
    ensures var (after, reply) := AfterCallback(s, state, cookie, google, allowed, code, at);
            var web := Live(s.web, Plain(state), at.web);
            && (reply == SignInView("cancelled") <==> web && google.Cancelled?)
            && (reply == SignInView("invite_only") <==> web && google.SignedIn? && google.email !in allowed)
            && (forall subject, email :: reply == SessionStarted(subject, email) <==>
                                           web && google == SignedIn(subject, email) && email in allowed)
            && (reply.SignInView? ==> reply.error == "cancelled" || reply.error == "invite_only")
  {
    PurgedIsLive(s.web, Plain(state), at.web);
    P.LiveIsPoppable(s.web, Plain(state), at.web);
    hide Purged, Poppable, AfterPop, StoreOrRefuse;
  }

  /**
   * What an MCP sign-in is answered, exactly. Whoever is sent on is sent to the redirect URI of the
   * request that was approved, with that request's own state: with the code, or as denied.
   */
  lemma McpAnswers(s: Stores, state: string, cookie: Option<string>, google: Google, allowed: set<string>,
                   code: string, at: Readings)
    ensures var reply := AfterCallback(s, state, cookie, google, allowed, code, at).1;
            var web, session := Live(s.web, Plain(state), at.web), Live(s.sessions, Plain(state), at.session);
            var approved := Approved(s, state, cookie, at);
            && (reply == InvalidState <==> !web && !session)
            && (reply == NotThisBrowser <==> !web && session && cookie != Some(state))
            && (reply == GoogleFailed <==> (web || approved) && google.Failed?)
            && (reply == AtCapacity <==>
                  && approved && google.SignedIn? && google.email in allowed
                  && !Room(s.codes, Digest(code), at.code))
            && (forall uri, own :: reply == AccessDenied(uri, own) <==>
                  && approved && (google.Cancelled? || (google.SignedIn? && google.email !in allowed))
                  && var r := s.sessions[Plain(state)].values;
                  uri == r.redirectUri && own == r.state)
            && (forall uri, own, made :: reply == CodeDelivered(uri, own, made) <==>
                  && approved && google.SignedIn? && google.email in allowed && Room(s.codes, Digest(code), at.code)
                  && var r := s.sessions[Plain(state)].values;
                  uri == r.redirectUri && own == r.state && made == code)
  {
    PurgedIsLive(s.web, Plain(state), at.web);
    P.LiveIsPoppable(s.web, Plain(state), at.web);
    PurgedIsLive(s.sessions, Plain(state), at.session);
    P.LiveIsPoppable(s.sessions, Plain(state), at.session);
    OthersAreLive(s.codes, Digest(code), at.code);
    hide Purged, Poppable, AfterPop, Room, Others;
  }

  /** What a callback leaves: its state spent where it was looked for, and at most the code delivered. */
  lemma CallbackLeaves(s: Stores, state: string, cookie: Option<string>, google: Google, allowed: set<string>,
                       code: string, at: Readings)
    ensures var (after, reply) := AfterCallback(s, state, cookie, google, allowed, code, at);
            && after.clients == s.clients
            && OneTaken(s.web, after.web, Plain(state), at.web)
            && (if Live(s.web, Plain(state), at.web) then after.sessions == s.sessions
                else OneTaken(s.sessions, after.sessions, Plain(state), at.session))
            && (!reply.CodeDelivered? ==> after.codes == s.codes)
            && (reply.CodeDelivered? ==>
                  && Plain(state) in s.sessions && google.SignedIn?
                  && (forall k :: k in after.codes <==> k == Digest(code) || Live(s.codes, k, at.code))
                  && (forall k :: k in after.codes && k != Digest(code) ==> after.codes[k] == s.codes[k])
                  && after.codes[Digest(code)]
                     == Row(P.Code(s.sessions[Plain(state)].values, google.subject, google.email), at.code + 60))
  {
    var (after, reply) := AfterCallback(s, state, cookie, google, allowed, code, at);
    WebSpent(s, state, cookie, google, allowed, code, at);
    EP.CallbackResult(s, state, cookie, google, allowed, code, at);
    McpAnswers(s, state, cookie, google, allowed, code, at);
    PurgedIsLive(s.web, Plain(state), at.web);
    PurgedIsLive(s.sessions, Plain(state), at.session);
    LiveLessOne(s.sessions, Plain(state), at.session);
    hide Purged, AfterPop, AfterCallback, StoreOrRefuse, OneTaken, Room;
    if Plain(state) in s.sessions && google.SignedIn? {
      var grant := P.Code(s.sessions[Plain(state)].values, google.subject, google.email);
      CodeStored(s.codes, code, grant, at.code);
      assert reply == CodeDelivered(grant.request.redirectUri, grant.request.state, code) ==> reply.CodeDelivered?;
    }
    assert reply.CodeDelivered? ==> reply == CodeDelivered(reply.redirectUri, reply.state, reply.code);
  }

  lemma WebSpent(s: Stores, state: string, cookie: Option<string>, google: Google, allowed: set<string>,
                 code: string, at: Readings)
    ensures OneTaken(s.web, AfterCallback(s, state, cookie, google, allowed, code, at).0.web, Plain(state), at.web)
  {
    LiveLessOne(s.web, Plain(state), at.web);
    hide Purged, AfterPop, Poppable, StoreOrRefuse, OneTaken;
  }

  lemma LiveLessOne<V(!new)>(rows: Rows<V>, key: StoredKey, now: Time)
    ensures OneTaken(rows, AfterPop(Purged(rows, now), key, now), key, now)
  {}

  lemma CodeStored(codes: Rows<P.Code>, code: string, grant: P.Code, now: Time)
    ensures var stored := StoreOrRefuse(codes, Digest(code), Row(grant, now + P.CODE_TTL), P.MAX_ENTRIES, now);
            && (stored.Some? <==> Room(codes, Digest(code), now))
            && (stored.Some? ==>
              && (forall k :: k in stored.value <==> k == Digest(code) || Live(codes, k, now))
              && (forall k :: k in stored.value && k != Digest(code) ==> stored.value[k] == codes[k])
              && stored.value[Digest(code)] == Row(grant, now + 60))
  {
    OthersAreLive(codes, Digest(code), now);
    hide Others, Room;
  }

  /**
   * What the browser is sent on with is what the exchange takes: the code delivered, presented with
   * the redirect URI it was delivered to, by the client that asked, with its secret and the verifier
   * of its challenge, is answered with a token for the account Google named, or for want of room.
   */
  lemma DeliveredCodeIsRedeemable(s: Stores, state: string, cookie: Option<string>, google: Google,
                                  allowed: set<string>, code: string, at: Readings, r: P.Request,
                                  tokens: Rows<Refresh>, clients: Rows<Client>, secret: string, verifier: string,
                                  token: string, family: nat, later: T.Readings)
    requires AfterCallback(s, state, cookie, google, allowed, code, at).1.CodeDelivered?
    requires Plain(state) in s.sessions && r == s.sessions[Plain(state)].values
    requires TP.InOrder(later) && later.consume < at.code + 60
    requires r.client != "" && KnowsSecret(clients, r.client, secret, later.client)
    requires r.challengeMethod == "S256" ==> verifier != "" && P.S256(verifier) == r.challenge
    ensures var (stored, reply) := AfterCallback(s, state, cookie, google, allowed, code, at);
            var (after, answer) := T.AfterRedemption(T.Stores(clients, stored.codes, tokens), allowed, reply.code,
                                                     reply.redirectUri, r.client, secret, verifier, token, family,
                                                     later);
            && google.SignedIn? && reply == CodeDelivered(r.redirectUri, r.state, code)
            && Digest(reply.code) !in after.codes
            && answer == (if Room(tokens, Digest(token), later.issue) then T.Issued(token) else T.AtCapacity)
            && (answer.Issued? ==>
                  && Digest(token) in after.tokens
                  && after.tokens[Digest(token)]
                     == Row(Refresh(Some(google.subject), Some(google.email), r.client, r.scope, family, None),
                            later.issue + 2_592_000))
  {
    var (stored, reply) := AfterCallback(s, state, cookie, google, allowed, code, at);
    McpAnswers(s, state, cookie, google, allowed, code, at);
    CallbackLeaves(s, state, cookie, google, allowed, code, at);
    assert reply == CodeDelivered(reply.redirectUri, reply.state, reply.code);
    var stores := T.Stores(clients, stored.codes, tokens);
    hide AfterCallback, T.AfterRedemption, Room, OnlyExpiredGone, MovedTo;
    CodeOutcomes(stores, allowed, code, r.redirectUri, r.client, secret, verifier, token, family, later);
    CodeLeaves(stores, allowed, code, r.redirectUri, r.client, secret, verifier, token, family, later);
  }

  // --- Registering and asking -------------------------------------------------------

  /** A registration is accepted exactly with a method the token endpoint has, and safe redirect URIs only. */
  lemma RegisterAnswers(authMethod: string, redirectUris: seq<string>, safe: string -> bool)
    ensures var refusal, known := RegistrationRefusal(authMethod, redirectUris, safe),
            authMethod == "none" || authMethod == "client_secret_post";
            var allSafe := forall i :: 0 <= i < |redirectUris| ==> safe(redirectUris[i]);
            && (refusal == None <==> known && allSafe)
            && (refusal == Some(WrongAuthMethod) <==> !known)
            && (refusal == Some(UnsafeUri) <==> known && !allSafe)
  {}

  /** An authorize request in the form asked for: a code for an S256 challenge. */
  predicate WellFormed(r: P.Request, responseType: string, configured: bool) {
    && configured && responseType == "code" && r.challengeMethod == "S256" && r.redirectUri != ""
    && r.challenge != P.Text("")
  }

  /**
   * An authorize request is accepted exactly if the sign-in is configured, it asks for a code with
   * an S256 challenge, and its client is registered, live, and with that redirect URI, which is
   * safe. Otherwise the answer is the first of these that fails.
   */
  lemma AuthorizeAnswers(clients: Rows<Client>, r: P.Request, responseType: string, configured: bool,
                         safe: string -> bool, lookedUpAt: Time)
    ensures var refusal := AuthorizeRefusal(clients, r, responseType, configured, safe, lookedUpAt);
            var live := Live(clients, Plain(r.client), lookedUpAt);
            var formed := WellFormed(r, responseType, configured);
            && (refusal == None <==>
                  && formed && live && r.redirectUri in clients[Plain(r.client)].values.redirectUris
                  && safe(r.redirectUri))
            && (refusal == Some(NotConfigured) <==> !configured)
            && (refusal == Some(WrongResponseType) <==> configured && responseType != "code")
            && (refusal == Some(WrongChallengeMethod) <==>
                  configured && responseType == "code" && r.challengeMethod != "S256")
            && (refusal == Some(NoRedirectUri) <==>
                  configured && responseType == "code" && r.challengeMethod == "S256" && r.redirectUri == "")
            && (refusal == Some(NoChallenge) <==>
                  && configured && responseType == "code" && r.challengeMethod == "S256" && r.redirectUri != ""
                  && r.challenge == P.Text(""))
            && (refusal == Some(UnknownClient) <==> formed && !live)
            && (refusal == Some(UnregisteredUri) <==>
                  formed && live && r.redirectUri !in clients[Plain(r.client)].values.redirectUris)
            && (refusal == Some(UnsafeUri) <==>
                  && formed && live && r.redirectUri in clients[Plain(r.client)].values.redirectUris
                  && !safe(r.redirectUri))
  {
    PurgedIsLive(clients, Plain(r.client), lookedUpAt);
    hide Purged;
  }
}
