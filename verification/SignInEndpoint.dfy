/**
 * The requests that lead to a code, as one request runs each (backend/mcp_oauth.py and
 * backend/auth.py): a client registers, asks to authorize, and Google's callback delivers the code.
 */
module SignInEndpoint {
  import opened Prelude
  import opened OauthState
  import opened Registrations
  import P = SignIn

  const WEB_SIGN_IN_TTL: Time := 600

  /** The client authentication methods the token endpoint implements. */
  const AUTH_METHODS := {"none", "client_secret_post"}

  datatype Refusal =
    | NotConfigured | WrongResponseType | WrongChallengeMethod | NoRedirectUri | NoChallenge
    | UnknownClient | UnregisteredUri | UnsafeUri | WrongAuthMethod

  /** What Google's exchange came to. */
  datatype Google = Cancelled | Failed | SignedIn(subject: string, email: string)

  datatype Reply =
    | SignInView(error: string) | SessionStarted(subject: string, email: string)  // the web sign-in
    | InvalidState | NotThisBrowser | GoogleFailed | AtCapacity
    | AccessDenied(redirectUri: string, state: string)
    | CodeDelivered(redirectUri: string, state: string, code: string)

  datatype Stores = Stores(clients: Rows<Client>, web: Rows<()>, sessions: Rows<P.Request>, codes: Rows<P.Code>)

  datatype Readings = Readings(web: Time, session: Time, code: Time)

  /** What is wrong with a registration; `safe` is the redirect URI check. */
  function RegistrationRefusal(authMethod: string, redirectUris: seq<string>, safe: string -> bool): Option<Refusal> {
    if authMethod !in AUTH_METHODS then Some(WrongAuthMethod)
    else if exists uri :: uri in redirectUris && !safe(uri) then Some(UnsafeUri)
    else None
  }

  /** What is wrong with the request itself, before any store is read. */
  function RequestRefusal(r: P.Request, responseType: string, configured: bool): Option<Refusal> {
    if !configured then Some(NotConfigured)
    else if responseType != "code" then Some(WrongResponseType)
    else if r.challengeMethod != P.METHOD_S256 then Some(WrongChallengeMethod)
    else if r.redirectUri == "" then Some(NoRedirectUri)
    else if r.challenge == P.Text("") then Some(NoChallenge)
    else None
  }

  /** What is wrong with the client it names. */
  function ClientRefusal(live: Rows<Client>, r: P.Request, safe: string -> bool): Option<Refusal> {
    if Plain(r.client) !in live then Some(UnknownClient)
    else if r.redirectUri !in live[Plain(r.client)].values.redirectUris then Some(UnregisteredUri)
    else if !safe(r.redirectUri) then Some(UnsafeUri)
    else None
  }

  /** The request is looked at first, and then the client as it is when looked up. */
  function AuthorizeRefusal(clients: Rows<Client>, r: P.Request, responseType: string, configured: bool,
                            safe: string -> bool, lookedUpAt: Time): Option<Refusal>
  {
    var refusal := RequestRefusal(r, responseType, configured);
    if refusal.Some? then refusal else ClientRefusal(Purged(clients, lookedUpAt), r, safe)
  }

  /** The web branch of the callback: a session for an allowed account, or the view that says why not. */
  function WebReply(google: Google, allowed: set<string>): Reply {
    match google
    case Cancelled => SignInView("cancelled")
    case Failed => GoogleFailed
    case SignedIn(subject, email) => if email in allowed then SessionStarted(subject, email)
        else SignInView("invite_only")
  }

  function AfterCallback(s: Stores, state: string, cookie: Option<string>, google: Google, allowed: set<string>,
                         code: string, at: Readings): (Stores, Reply)
  {
    var webLive := Purged(s.web, at.web);
    var read := s.(web := AfterPop(webLive, Plain(state), at.web));
    if Poppable(webLive, Plain(state), at.web).Some? then (read, WebReply(google, allowed)) else
    var live := Purged(s.sessions, at.session);
    var popped := read.(sessions := AfterPop(live, Plain(state), at.session));
    match Poppable(live, Plain(state), at.session)
    case None => (popped, InvalidState)
    case Some(flow) =>
      if cookie != Some(state) then (popped, NotThisBrowser)
      else match google
        case Cancelled => (popped, AccessDenied(flow.values.redirectUri, flow.values.state))
        case Failed => (popped, GoogleFailed)
        case SignedIn(subject, email) =>
          if email !in allowed then (popped, AccessDenied(flow.values.redirectUri, flow.values.state))
          else match StoreOrRefuse(popped.codes, Digest(code),
                                   Row(P.Code(flow.values, subject, email), at.code + P.CODE_TTL),
                                   P.MAX_ENTRIES, at.code)
            case None => (popped, AtCapacity)
            case Some(codes) => (popped.(codes := codes),
                                 CodeDelivered(flow.values.redirectUri, flow.values.state, code))
  }

  class Server {
    const clients: Store<Client>
    const web: Store<()>
    const sessions: Store<P.Request>
    const codes: Store<P.Code>
    var allowed: set<string>

    ghost predicate Valid()
      reads this, clients, web, sessions, codes
    {
      && (clients as object) != web && (clients as object) != sessions && (clients as object) != codes
      && (web as object) != sessions && (web as object) != codes && (sessions as object) != codes
      && (clients as object) != this && (web as object) != this && (sessions as object) != this
      && (codes as object) != this
      && !clients.hashesKeys && clients.evicts && clients.maxEntries == MAX_CLIENTS
      && !web.hashesKeys && web.evicts && web.maxEntries == P.MAX_ENTRIES && !sessions.hashesKeys && sessions.evicts
      && sessions.maxEntries == P.MAX_ENTRIES
      && codes.hashesKeys && !codes.evicts && codes.maxEntries == P.MAX_ENTRIES
      && clients.rows == clients.committed && web.rows == web.committed
      && sessions.rows == sessions.committed && codes.rows == codes.committed
    }

    ghost function View(): Stores
      reads clients, web, sessions, codes
    {
      Stores(clients.rows, web.rows, sessions.rows, codes.rows)
    }

    constructor (allowed: set<string>)
      ensures Valid() && View() == Stores(map[], map[], map[], map[])
      ensures fresh(clients) && fresh(web) && fresh(sessions) && fresh(codes)
    {
      clients := new Store(MAX_CLIENTS, true, false);
      web := new Store(P.MAX_ENTRIES, true, false);
      sessions := new Store(P.MAX_ENTRIES, true, false);
      codes := new Store(P.MAX_ENTRIES, false, true);
      this.allowed := allowed;
    }

    /** POST /oauth/register, once its body parses: an hour to be used in, or a refusal and nothing. */
    method Register(id: string, authMethod: string, redirectUris: seq<string>, safe: string -> bool, secret: string,
                    now: Time)
      returns (refusal: Option<Refusal>)
      requires Valid()
      modifies clients
      ensures Valid() && old(View()).(clients := clients.rows) == View()
      ensures refusal == RegistrationRefusal(authMethod, redirectUris, safe)
      ensures refusal.Some? ==> clients.rows == old(clients.rows)
      ensures refusal.None? ==>
                Stored(old(clients.rows), Plain(id), Row(Client(authMethod == "none", Digest(secret), redirectUris),
                                                         now + UNUSED_CLIENT_TTL),
                       MAX_CLIENTS, now, clients.rows)
    {
      if authMethod !in AUTH_METHODS {
        return Some(WrongAuthMethod);
      }
      var i := 0;
      while i < |redirectUris|
        invariant 0 <= i <= |redirectUris|
        invariant forall j :: 0 <= j < i ==> safe(redirectUris[j])
      {
        if !safe(redirectUris[i]) {
          return Some(UnsafeUri);
        }
        i := i + 1;
      }
      var client := Client(authMethod == "none", Digest(secret), redirectUris);
      var _ := clients.CleanupAndStore(id, Row(client, now + UNUSED_CLIENT_TTL), now);
      return None;
    }

    /** GET /api/auth/google: a web sign-in is remembered under a fresh state. */
    method StartWebSignIn(configured: bool, state: string, now: Time) returns (refusal: Option<Refusal>)
      requires Valid()
      modifies web
      ensures Valid() && old(View()).(web := web.rows) == View()
      ensures refusal == if configured then None else Some(NotConfigured)
      ensures refusal.Some? ==> web.rows == old(web.rows)
      ensures refusal.None? ==> Stored(old(web.rows), Plain(state), Row((), now + WEB_SIGN_IN_TTL), P.MAX_ENTRIES, now,
                                       web.rows)
    {
      if !configured {
        return Some(NotConfigured);
      }
      var _ := web.CleanupAndStore(state, Row((), now + WEB_SIGN_IN_TTL), now);
      return None;
    }

    /** GET /oauth/authorize: the request is remembered under a fresh state, or refused. */
    method Authorize(configured: bool, request: P.Request, responseType: string, safe: string -> bool, state: string,
                     lookedUpAt: Time, now: Time)
      returns (refusal: Option<Refusal>)
      requires Valid()
      modifies clients, sessions
      ensures Valid() && old(View()).(clients := clients.rows, sessions := sessions.rows) == View()
      ensures refusal == AuthorizeRefusal(old(clients.rows), request, responseType, configured, safe, lookedUpAt)
      ensures clients.rows == (if RequestRefusal(request, responseType, configured).Some? then old(clients.rows)
                               else Purged(old(clients.rows), lookedUpAt))
      ensures refusal.Some? ==> sessions.rows == old(sessions.rows)
      ensures refusal.None? ==>
                Stored(old(sessions.rows), Plain(state), Row(request, now + P.SESSION_TTL), P.MAX_ENTRIES, now,
                       sessions.rows)
    {
      if !configured {
        return Some(NotConfigured);
      }
      if responseType != "code" {
        return Some(WrongResponseType);
      }
      if request.challengeMethod != P.METHOD_S256 {
        return Some(WrongChallengeMethod);
      }
      if request.redirectUri == "" {
        return Some(NoRedirectUri);
      }
      if request.challenge == P.Text("") {
        return Some(NoChallenge);
      }
      var registered := clients.CleanupAndGet(request.client, lookedUpAt);
      if registered.None? {
        return Some(UnknownClient);
      }
      if request.redirectUri !in registered.value.values.redirectUris {
        return Some(UnregisteredUri);
      }
      if !safe(request.redirectUri) {
        return Some(UnsafeUri);
      }
      var _ := sessions.CleanupAndStore(state, Row(request, now + P.SESSION_TTL), now);
      return None;
    }

    /** The MCP branch of the callback, once its flow was popped in the browser that approved it. */
    method FinishMcpSignIn(flow: P.Request, google: Google, code: string, now: Time) returns (reply: Reply)
      requires Valid()
      modifies codes
      ensures Valid() && old(View()).(codes := codes.rows) == View()
      ensures var stored := if google.SignedIn? && google.email in allowed
                            then StoreOrRefuse(old(codes.rows), Digest(code),
                                               Row(P.Code(flow, google.subject, google.email), now + P.CODE_TTL),
                                               P.MAX_ENTRIES, now)
                            else None;
              && codes.rows == (if stored.Some? then stored.value else old(codes.rows))
              && reply == match google
                          case Cancelled => AccessDenied(flow.redirectUri, flow.state)
                          case Failed => GoogleFailed
                          case SignedIn(_, email) =>
                            if email !in allowed then AccessDenied(flow.redirectUri, flow.state)
                            else if stored.Some? then CodeDelivered(flow.redirectUri, flow.state, code)
                            else AtCapacity
    {
      match google
      case Cancelled => return AccessDenied(flow.redirectUri, flow.state);
      case Failed => return GoogleFailed;
      case SignedIn(subject, email) =>
        if email !in allowed {
          return AccessDenied(flow.redirectUri, flow.state);
        }
        var stored := codes.CleanupAndStore(code, Row(P.Code(flow, subject, email), now + P.CODE_TTL), now);
        return if stored then CodeDelivered(flow.redirectUri, flow.state, code) else AtCapacity;
    }

    /** The web branch: nothing is stored, the session is the cookie. */
    method FinishWebSignIn(google: Google) returns (reply: Reply)
      ensures reply == WebReply(google, allowed)
    {
      match google
      case Cancelled => return SignInView("cancelled");
      case Failed => return GoogleFailed;
      case SignedIn(subject, email) =>
        if email !in allowed {
          return SignInView("invite_only");
        }
        return SessionStarted(subject, email);
    }

    method GoogleCallback(state: string, cookie: Option<string>, google: Google, code: string, at: Readings)
      returns (reply: Reply)
      requires Valid()
      modifies web, sessions, codes
      ensures Valid()
      ensures (View(), reply) == AfterCallback(old(View()), state, cookie, google, allowed, code, at)
    {
      hide Purged, Poppable, AfterPop, StoreOrRefuse;
      var webFlow := web.CleanupAndPop(state, at.web, at.web);
      if webFlow.Some? {
        reply := FinishWebSignIn(google);
        return;
      }
      var flow := sessions.CleanupAndPop(state, at.session, at.session);
      if flow.None? {
        return InvalidState;
      }
      if cookie != Some(state) {
        return NotThisBrowser;
      }
      reply := FinishMcpSignIn(flow.value.values, google, code, at.code);
    }
  }
}
