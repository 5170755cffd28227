/**
 * From the authorize request to the refresh family it ends in (backend/mcp_oauth.py and the Google
 * callback of backend/auth.py), with any number of callbacks and code exchanges interleaved. The
 * session is popped by the callback and the code by the exchange; PKCE is checked in between.
 */
module SignIn {
  import opened Prelude
  import opened OauthState
  import opened Runs

  const MAX_ENTRIES: nat := 10_000
  const SESSION_TTL: Time := 600
  const CODE_TTL: Time := 60

  /** The S256 challenge of a verifier, taken to be injective, or any other text a client sends. */
  datatype Challenge = S256(verifier: string) | Text(text: string)

  const METHOD_S256 := "S256"

  /**
   * What the client asked for, kept unchanged through session and code. `state` is the client's own,
   * which the callback hands back.
   */
  datatype Request = Request(
    client: string, redirectUri: string, state: string, scope: string, challenge: Challenge, challengeMethod: string)

  datatype Code = Code(request: Request, subject: string, email: string)

  /** PKCE and the redirect URI, as the exchange checks them on the code it popped. */
  predicate Verifies(request: Request, redirectUri: string, verifier: string) {
    && redirectUri == request.redirectUri
    && (request.challengeMethod == METHOD_S256 ==> verifier != "" && S256(verifier) == request.challenge)
  }

  datatype Callback = Delivering(session: StoredKey, request: Request) | CallbackDone

  datatype Exchange =
    | Asking(code: StoredKey, client: string, redirectUri: string, verifier: string)
    | Admitted(code: StoredKey, redirectUri: string, verifier: string)  // the grant read, its client authenticated
    | Redeemed(origin: Origin)                                          // the code popped and verified
    | ExchangeDone

  /** What a family begins with: the code popped, and what its exchanger presented. */
  datatype Origin = Origin(code: StoredKey, grant: Code, redirectUri: string, verifier: string)

  /** Which request each session was made for, and which session each code. */
  datatype Trail = Trail(requests: seq<Request>, sessionOf: map<StoredKey, nat>, codeOf: map<StoredKey, StoredKey>) {
    predicate SessionFor(session: StoredKey, request: Request) {
      session in sessionOf && sessionOf[session] < |requests| && requests[sessionOf[session]] == request
    }

    predicate CodeFor(code: StoredKey, request: Request) {
      code in codeOf && SessionFor(codeOf[code], request)
    }
  }

  /** The two stores and the requests in flight, with the history of where everything came from. */
  datatype State = State(
    clock: Time, clients: map<string, set<string>>, sessions: Rows<Request>, codes: Rows<Code>,
    callbacks: map<nat, Callback>, exchanges: map<nat, Exchange>,
    trail: Trail, sessionPops: seq<StoredKey>, codePops: seq<StoredKey>, families: map<nat, Origin>)

  datatype Step =
    | Tick(seconds: nat)
    | Registrations(clients: map<string, set<string>>)
    | Authorize(session: StoredKey, request: Request)
    | PopSession(p: nat, session: StoredKey, approved: bool)
    | Deliver(p: nat, code: StoredKey, subject: string, email: string)
    | GiveUp(p: nat)                                  // cancelled, refused by Google, or not allowed
    | Ask(p: nat, code: StoredKey, client: string, redirectUri: string, verifier: string)
    | ReadGrant(p: nat, authenticated: bool)
    | PopCode(p: nat)
    | BeginFamily(p: nat, family: nat)
    | Refuse(p: nat)                                  // not allowed, or the token store is full

  predicate Acceptable(s: State, request: Request) {
    && request.challengeMethod == METHOD_S256 && request.redirectUri != "" && request.challenge != Text("")
    && request.client in s.clients && request.redirectUri in s.clients[request.client]
  }

  function AfterPopSession(s: State, p: nat, session: StoredKey, approved: bool): State {
    var live := Purged(s.sessions, s.clock);
    match Poppable(live, session, s.clock)
    case None => s.(sessions := live, callbacks := s.callbacks[p := CallbackDone])
    case Some(row) =>
      s.(sessions := AfterPop(live, session, s.clock), sessionPops := s.sessionPops + [session],
         callbacks := s.callbacks[p := if approved then Delivering(session, row.values) else CallbackDone])
  }

  function AfterDeliver(s: State, p: nat, session: StoredKey, code: StoredKey, grant: Code): State {
    match StoreOrRefuse(s.codes, code, Row(grant, s.clock + CODE_TTL), MAX_ENTRIES, s.clock)
    case None => s.(callbacks := s.callbacks[p := CallbackDone])
    case Some(codes) =>
      s.(codes := codes, trail := s.trail.(codeOf := s.trail.codeOf[code := session]),
         callbacks := s.callbacks[p := CallbackDone])
  }

  function AfterReadGrant(s: State, p: nat, e: Exchange, authenticated: bool): State
    requires e.Asking?
  {
    var live := Purged(s.codes, s.clock);
    var admitted := match Find(live, e.code)
                    case None => false
                    case Some(row) => e.client != "" && e.client == row.values.request.client && authenticated;
    s.(codes := live,
       exchanges := s.exchanges[p := if admitted then Admitted(e.code, e.redirectUri, e.verifier) else ExchangeDone])
  }

  function AfterPopCode(s: State, p: nat, e: Exchange): State
    requires e.Admitted?
  {
    var live := Purged(s.codes, s.clock);
    match Poppable(live, e.code, s.clock)
    case None => s.(codes := live, exchanges := s.exchanges[p := ExchangeDone])
    case Some(row) =>
      var next := if Verifies(row.values.request, e.redirectUri, e.verifier)
                  then Redeemed(Origin(e.code, row.values, e.redirectUri, e.verifier)) else ExchangeDone;
      s.(codes := AfterPop(live, e.code, s.clock), codePops := s.codePops + [e.code],
         exchanges := s.exchanges[p := next])
  }

  ghost predicate Next(s: State, step: Step, t: State) {
    match step
    case Tick(seconds) => t == s.(clock := s.clock + seconds)
    case Registrations(clients) => t == s.(clients := clients)
    case Authorize(session, request) =>
      && session !in s.trail.sessionOf && Acceptable(s, request)
      && Stored(s.sessions, session, Row(request, s.clock + SESSION_TTL), MAX_ENTRIES, s.clock, t.sessions)
      && t == s.(sessions := t.sessions, trail := s.trail.(
            requests := s.trail.requests + [request], sessionOf := s.trail.sessionOf[session := |s.trail.requests|]))
    case PopSession(p, session, approved) =>
      p !in s.callbacks && t == AfterPopSession(s, p, session, approved)
    case Deliver(p, code, subject, email) =>
      && p in s.callbacks && s.callbacks[p].Delivering? && code !in s.trail.codeOf
      && t == AfterDeliver(s, p, s.callbacks[p].session, code, Code(s.callbacks[p].request, subject, email))
    case GiveUp(p) =>
      && p in s.callbacks && s.callbacks[p].Delivering?
      && t == s.(callbacks := s.callbacks[p := CallbackDone])
    case Ask(p, code, client, redirectUri, verifier) =>
      p !in s.exchanges && t == s.(exchanges := s.exchanges[p := Asking(code, client, redirectUri, verifier)])
    case ReadGrant(p, authenticated) =>
      p in s.exchanges && s.exchanges[p].Asking? && t == AfterReadGrant(s, p, s.exchanges[p], authenticated)
    case PopCode(p) =>
      p in s.exchanges && s.exchanges[p].Admitted? && t == AfterPopCode(s, p, s.exchanges[p])
    case BeginFamily(p, family) =>
      && p in s.exchanges && s.exchanges[p].Redeemed? && family !in s.families
      && t == s.(exchanges := s.exchanges[p := ExchangeDone],
                 families := s.families[family := s.exchanges[p].origin])
    case Refuse(p) =>
      && p in s.exchanges && s.exchanges[p].Redeemed?
      && t == s.(exchanges := s.exchanges[p := ExchangeDone])
  }

  function Initial(): State {
    State(0, map[], map[], map[], map[], map[], Trail([], map[], map[]), [], [], map[])
  }

  ghost predicate Run(states: seq<State>, steps: seq<Step>) {
    Leads(Next, states, steps) && states[0] == Initial()
  }

  // --- The invariant: everything has one origin, and is spent once --------------

  ghost predicate TrailOk(trail: Trail, sessionPops: seq<StoredKey>) {
    && (forall k :: k in trail.sessionOf ==>
          trail.sessionOf[k] < |trail.requests| && trail.requests[trail.sessionOf[k]].challengeMethod == METHOD_S256)
    && (forall k, l :: k in trail.sessionOf && l in trail.sessionOf && k != l ==>
          trail.sessionOf[k] != trail.sessionOf[l])
    && (forall c :: c in trail.codeOf ==> trail.codeOf[c] in sessionPops)
    && (forall c, d :: c in trail.codeOf && d in trail.codeOf && c != d ==> trail.codeOf[c] != trail.codeOf[d])
  }

  ghost predicate SessionsWait(sessions: Rows<Request>, pops: seq<StoredKey>, trail: Trail) {
    && NoDuplicates(pops)
    && (forall k :: k in pops ==> k in trail.sessionOf)
    && (forall k :: k in sessions ==> k !in pops && trail.SessionFor(k, sessions[k].values))
  }

  /** A popped session is with at most one callback, which has not made a code of it yet. */
  ghost predicate CallbacksHold(callbacks: map<nat, Callback>, pops: seq<StoredKey>, trail: Trail) {
    && (forall p :: p in callbacks && callbacks[p].Delivering? ==>
          && callbacks[p].session in pops
          && trail.SessionFor(callbacks[p].session, callbacks[p].request)
          && (forall c :: c in trail.codeOf ==> trail.codeOf[c] != callbacks[p].session))
    && (forall p, q | p in callbacks && q in callbacks && p != q ::
          callbacks[p].Delivering? && callbacks[q].Delivering? ==> callbacks[p].session != callbacks[q].session)
  }

  ghost predicate CodesWait(codes: Rows<Code>, pops: seq<StoredKey>, trail: Trail) {
    && NoDuplicates(pops)
    && (forall c :: c in pops ==> c in trail.codeOf)
    && (forall c :: c in codes ==> c !in pops && trail.CodeFor(c, codes[c].values.request))
  }

  /** The code is popped, and its exchanger presented its redirect URI and the verifier of its challenge. */
  ghost predicate Spent(o: Origin, pops: seq<StoredKey>, trail: Trail) {
    && o.code in pops && trail.CodeFor(o.code, o.grant.request)
    && o.redirectUri == o.grant.request.redirectUri && o.grant.request.challenge == S256(o.verifier) && o.verifier != ""
  }

  /** A popped code is with at most one exchange, which has not begun a family with it yet. */
  ghost predicate ExchangesHold(exchanges: map<nat, Exchange>, pops: seq<StoredKey>, families: map<nat, Origin>,
                                trail: Trail)
  {
    && (forall p :: p in exchanges && exchanges[p].Redeemed? ==>
          && Spent(exchanges[p].origin, pops, trail)
          && (forall f :: f in families ==> families[f].code != exchanges[p].origin.code))
    && (forall p, q | p in exchanges && q in exchanges && p != q ::
          exchanges[p].Redeemed? && exchanges[q].Redeemed? ==> exchanges[p].origin.code != exchanges[q].origin.code)
  }

  ghost predicate FamiliesOriginate(families: map<nat, Origin>, pops: seq<StoredKey>, trail: Trail) {
    && (forall f :: f in families ==> Spent(families[f], pops, trail))
    && (forall f, g :: f in families && g in families && f != g ==> families[f].code != families[g].code)
  }

  ghost predicate Inv(s: State) {
    && TrailOk(s.trail, s.sessionPops)
    && SessionsWait(s.sessions, s.sessionPops, s.trail)
    && CallbacksHold(s.callbacks, s.sessionPops, s.trail)
    && CodesWait(s.codes, s.codePops, s.trail)
    && ExchangesHold(s.exchanges, s.codePops, s.families, s.trail)
    && FamiliesOriginate(s.families, s.codePops, s.trail)
  }

  // --- How each part of it changes ----------------------------------------------

  ghost predicate Longer(trail: Trail, longer: Trail) {
    && (forall k, r :: trail.SessionFor(k, r) ==> longer.SessionFor(k, r))
    && (forall c, r :: trail.CodeFor(c, r) ==> longer.CodeFor(c, r))
    && trail.sessionOf.Keys <= longer.sessionOf.Keys && trail.codeOf.Keys <= longer.codeOf.Keys
  }

  lemma LongerKeeps(s: State, longer: Trail)
    requires Inv(s) && Longer(s.trail, longer)
    ensures SessionsWait(s.sessions, s.sessionPops, longer) && CodesWait(s.codes, s.codePops, longer)
    ensures ExchangesHold(s.exchanges, s.codePops, s.families, longer)
    ensures FamiliesOriginate(s.families, s.codePops, longer)
    ensures longer.codeOf == s.trail.codeOf ==> CallbacksHold(s.callbacks, s.sessionPops, longer)
  {
    hide TrailOk;
  }

  lemma AuthorizedTrail(trail: Trail, pops: seq<StoredKey>, session: StoredKey, request: Request)
    requires TrailOk(trail, pops) && session !in trail.sessionOf && request.challengeMethod == METHOD_S256
    ensures var longer := trail.(requests := trail.requests + [request],
                                 sessionOf := trail.sessionOf[session := |trail.requests|]);
            TrailOk(longer, pops) && Longer(trail, longer) && longer.SessionFor(session, request)
  {}

  lemma TakeSession(sessions: Rows<Request>, pops: seq<StoredKey>, trail: Trail, session: StoredKey)
    requires SessionsWait(sessions, pops, trail) && session in sessions
    ensures SessionsWait(sessions - {session}, pops + [session], trail)
  {}

  lemma MorePops(callbacks: map<nat, Callback>, pops: seq<StoredKey>, trail: Trail, session: StoredKey)
    requires TrailOk(trail, pops) && CallbacksHold(callbacks, pops, trail)
    ensures TrailOk(trail, pops + [session]) && CallbacksHold(callbacks, pops + [session], trail)
  {}

  lemma CallbackTakes(callbacks: map<nat, Callback>, pops: seq<StoredKey>, trail: Trail, p: nat, session: StoredKey,
                      request: Request)
    requires TrailOk(trail, pops) && CallbacksHold(callbacks, pops, trail)
    requires session !in pops && trail.SessionFor(session, request)
    ensures CallbacksHold(callbacks[p := Delivering(session, request)], pops + [session], trail)
  {}

  lemma CallbackEnds(callbacks: map<nat, Callback>, pops: seq<StoredKey>, trail: Trail, p: nat)
    requires CallbacksHold(callbacks, pops, trail)
    ensures CallbacksHold(callbacks[p := CallbackDone], pops, trail)
  {}

  lemma DeliveredTrail(trail: Trail, callbacks: map<nat, Callback>, pops: seq<StoredKey>, p: nat, code: StoredKey)
    requires TrailOk(trail, pops) && CallbacksHold(callbacks, pops, trail)
    requires p in callbacks && callbacks[p].Delivering? && code !in trail.codeOf
    ensures var longer := trail.(codeOf := trail.codeOf[code := callbacks[p].session]);
            && TrailOk(longer, pops) && Longer(trail, longer) && longer.CodeFor(code, callbacks[p].request)
            && CallbacksHold(callbacks[p := CallbackDone], pops, longer)
  {
    CallbackEnds(callbacks, pops, trail, p);
  }

  lemma TakeCode(codes: Rows<Code>, pops: seq<StoredKey>, trail: Trail, code: StoredKey)
    requires CodesWait(codes, pops, trail) && code in codes
    ensures CodesWait(codes - {code}, pops + [code], trail)
  {}

  lemma MoreCodePops(s: State, code: StoredKey)
    requires ExchangesHold(s.exchanges, s.codePops, s.families, s.trail)
             && FamiliesOriginate(s.families, s.codePops, s.trail)
    ensures ExchangesHold(s.exchanges, s.codePops + [code], s.families, s.trail)
    ensures FamiliesOriginate(s.families, s.codePops + [code], s.trail)
  {}

  lemma ExchangeTakes(s: State, p: nat, origin: Origin)
    requires ExchangesHold(s.exchanges, s.codePops, s.families, s.trail)
             && FamiliesOriginate(s.families, s.codePops, s.trail)
    requires origin.code !in s.codePops && Spent(origin, s.codePops + [origin.code], s.trail)
    ensures ExchangesHold(s.exchanges[p := Redeemed(origin)], s.codePops + [origin.code], s.families, s.trail)
  {}

  lemma ExchangeEnds(s: State, p: nat, e: Exchange)
    requires ExchangesHold(s.exchanges, s.codePops, s.families, s.trail) && !e.Redeemed?
    ensures ExchangesHold(s.exchanges[p := e], s.codePops, s.families, s.trail)
  {}

  lemma MethodIsS256(trail: Trail, pops: seq<StoredKey>, code: StoredKey, request: Request)
    requires TrailOk(trail, pops) && trail.CodeFor(code, request)
    ensures request.challengeMethod == METHOD_S256
  {}

  // --- Every step keeps it ------------------------------------------------------

  lemma PurgeKeepsInv(s: State, t: State)
    requires Inv(s) && Submap(t.sessions, s.sessions) && Submap(t.codes, s.codes)
    requires t == s.(sessions := t.sessions, codes := t.codes)
    ensures Inv(t)
  {
    hide TrailOk, CallbacksHold, ExchangesHold, FamiliesOriginate;
  }

  lemma AuthorizeKeepsInv(s: State, session: StoredKey, request: Request, t: State)
    requires Inv(s) && Next(s, Authorize(session, request), t)
    ensures Inv(t)
  {
    hide Stored, TrailOk, CallbacksHold, CodesWait, ExchangesHold, FamiliesOriginate;
    StoredOnlyAdds(s.sessions, session, Row(request, s.clock + SESSION_TTL), MAX_ENTRIES, s.clock, t.sessions);
    AuthorizedTrail(s.trail, s.sessionPops, session, request);
    LongerKeeps(s, t.trail);
  }

  lemma PopSessionKeepsInv(s: State, p: nat, session: StoredKey, approved: bool, t: State)
    requires Inv(s) && t == AfterPopSession(s, p, session, approved)
    ensures Inv(t)
  {
    var live := Purged(s.sessions, s.clock);
    PurgeKeepsInv(s, s.(sessions := live));
    hide TrailOk, CallbacksHold, CodesWait, ExchangesHold, FamiliesOriginate, SessionsWait;
    CallbackEnds(s.callbacks, s.sessionPops, s.trail, p);
    if session in live {
      assert Poppable(live, session, s.clock) == Some(live[session]);
      assert AfterPop(live, session, s.clock) == live - {session};
      TakeLiveSession(s, p, live, session, approved);
    } else {
      assert Poppable(live, session, s.clock) == None;
    }
  }

  lemma TakeLiveSession(s: State, p: nat, live: Rows<Request>, session: StoredKey, approved: bool)
    requires Inv(s) && Inv(s.(sessions := live)) && session in live
    ensures var next := if approved then Delivering(session, live[session].values) else CallbackDone;
            Inv(s.(sessions := live - {session}, sessionPops := s.sessionPops + [session],
                   callbacks := s.callbacks[p := next]))
  {
    hide TrailOk, CallbacksHold, CodesWait, ExchangesHold, FamiliesOriginate;
    TakeSession(live, s.sessionPops, s.trail, session);
    MorePops(s.callbacks, s.sessionPops, s.trail, session);
    CallbackEnds(s.callbacks, s.sessionPops + [session], s.trail, p);
    CallbackTakes(s.callbacks, s.sessionPops, s.trail, p, session, live[session].values);
    hide SessionsWait;
  }

  lemma CodeKept(codes: Rows<Code>, pops: seq<StoredKey>, trail: Trail, longer: Trail, code: StoredKey, row: Row<Code>,
                 now: Time)
    requires CodesWait(codes, pops, trail) && CodesWait(codes, pops, longer)
    requires code !in trail.codeOf && longer.CodeFor(code, row.values.request)
    ensures CodesWait(Purged(codes, now)[code := row], pops, longer)
  {}

  lemma DeliverKeepsInv(s: State, p: nat, code: StoredKey, subject: string, email: string, t: State)
    requires Inv(s) && p in s.callbacks && s.callbacks[p].Delivering? && code !in s.trail.codeOf
    requires t == AfterDeliver(s, p, s.callbacks[p].session, code, Code(s.callbacks[p].request, subject, email))
    ensures Inv(t)
  {
    hide TrailOk, SessionsWait, CallbacksHold, CodesWait, ExchangesHold, FamiliesOriginate, Others, Purged;
    DeliveredTrail(s.trail, s.callbacks, s.sessionPops, p, code);
    CallbackEnds(s.callbacks, s.sessionPops, s.trail, p);
    var longer := s.trail.(codeOf := s.trail.codeOf[code := s.callbacks[p].session]);
    LongerKeeps(s, longer);
    hide Longer;
    CodeKept(s.codes, s.codePops, s.trail, longer, code,
             Row(Code(s.callbacks[p].request, subject, email), s.clock + CODE_TTL), s.clock);
  }

  lemma ReadGrantKeepsInv(s: State, p: nat, authenticated: bool, t: State)
    requires Inv(s) && p in s.exchanges && s.exchanges[p].Asking?
             && t == AfterReadGrant(s, p, s.exchanges[p], authenticated)
    ensures Inv(t)
  {
    var purged := s.(codes := Purged(s.codes, s.clock));
    PurgeKeepsInv(s, purged);
    hide Purged, TrailOk, SessionsWait, CallbacksHold, CodesWait, ExchangesHold, FamiliesOriginate;
    ExchangeEnds(s, p, t.exchanges[p]);
  }

  lemma PopCodeKeepsInv(s: State, p: nat, t: State)
    requires Inv(s) && p in s.exchanges && s.exchanges[p].Admitted? && t == AfterPopCode(s, p, s.exchanges[p])
    ensures Inv(t)
  {
    var e, live := s.exchanges[p], Purged(s.codes, s.clock);
    PurgeKeepsInv(s, s.(codes := live));
    hide TrailOk, SessionsWait, CallbacksHold, CodesWait, ExchangesHold, FamiliesOriginate;
    LiveIsPoppable(s.codes, e.code, s.clock);
    hide Verifies, Poppable, AfterPop, Purged;
    if e.code in live {
      TakeLiveCode(s, p, live, e.code, e.redirectUri, e.verifier);
    } else {
      ExchangeEnds(s, p, ExchangeDone);
    }
  }

  /** After a purge a row can be popped exactly when it is there. */
  lemma LiveIsPoppable<V>(rows: Rows<V>, key: StoredKey, now: Time)
    ensures var live := Purged(rows, now);
            if key in live
            then Poppable(live, key, now) == Some(live[key]) && AfterPop(live, key, now) == live - {key}
            else Poppable(live, key, now) == None && AfterPop(live, key, now) == live
  {}

  lemma TakeLiveCode(s: State, p: nat, live: Rows<Code>, code: StoredKey, redirectUri: string, verifier: string)
    requires Inv(s) && Inv(s.(codes := live)) && code in live
    ensures var grant := live[code].values;
            var next := if Verifies(grant.request, redirectUri, verifier)
                        then Redeemed(Origin(code, grant, redirectUri, verifier)) else ExchangeDone;
            Inv(s.(codes := live - {code}, codePops := s.codePops + [code], exchanges := s.exchanges[p := next]))
  {
    hide TrailOk, SessionsWait, CallbacksHold, ExchangesHold, FamiliesOriginate;
    var grant := live[code].values;
    TakeCode(live, s.codePops, s.trail, code);
    MethodIsS256(s.trail, s.sessionPops, code, grant.request);
    MoreCodePops(s, code);
    ExchangeEnds(s.(codePops := s.codePops + [code]), p, ExchangeDone);
    if Verifies(grant.request, redirectUri, verifier) {
      ExchangeTakes(s, p, Origin(code, grant, redirectUri, verifier));
    }
    hide CodesWait;
  }

  lemma BeginFamilyKeepsInv(s: State, p: nat, family: nat, t: State)
    requires Inv(s) && Next(s, BeginFamily(p, family), t)
    ensures Inv(t)
  {
    hide TrailOk, SessionsWait, CallbacksHold, CodesWait;
  }

  lemma StepKeepsInv(s: State, step: Step, t: State)
    requires Inv(s) && Next(s, step, t)
    ensures Inv(t)
  {
    match step
    case Tick(_) =>
    case Registrations(_) =>
    case Authorize(session, request) => AuthorizeKeepsInv(s, session, request, t);
    case PopSession(p, session, approved) => PopSessionKeepsInv(s, p, session, approved, t);
    case Deliver(p, code, subject, email) => DeliverKeepsInv(s, p, code, subject, email, t);
    case GiveUp(p) => CallbackEnds(s.callbacks, s.sessionPops, s.trail, p);
    case Ask(p, _, _, _, _) => ExchangeEnds(s, p, t.exchanges[p]);
    case ReadGrant(p, authenticated) => ReadGrantKeepsInv(s, p, authenticated, t);
    case PopCode(p) => PopCodeKeepsInv(s, p, t);
    case BeginFamily(p, family) => BeginFamilyKeepsInv(s, p, family, t);
    case Refuse(p) => ExchangeEnds(s, p, ExchangeDone);
  }

  lemma {:induction false} ReachableInv(states: seq<State>, steps: seq<Step>, i: nat)
    requires Run(states, steps) && i < |states|
    ensures Inv(states[i])
  {
    if i > 0 {
      ReachableInv(states, steps, i - 1);
      StepKeepsInv(states[i - 1], steps[i - 1], states[i]);
    }
  }

  // --- What it is for -----------------------------------------------------------

  /** The authorize request a family goes back to. */
  ghost predicate BegunBy(s: State, family: nat, request: nat) {
    && family in s.families
    && var origin := s.families[family];
    && origin.code in s.trail.codeOf && s.trail.codeOf[origin.code] in s.trail.sessionOf
    && request == s.trail.sessionOf[s.trail.codeOf[origin.code]] < |s.trail.requests|
  }

  /**
   * Every refresh family goes back to one authorize request, whose client, redirect URI, scope and
   * challenge it kept, through a session popped once and a code popped once; its exchanger
   * presented that request's redirect URI and the verifier of its S256 challenge; and no other
   * family goes back to the same request.
   */
  lemma FamilyTracesToOneRequest(states: seq<State>, steps: seq<Step>, i: nat, family: nat)
    requires Run(states, steps) && i < |states| && family in states[i].families
    ensures var s := states[i];
            var origin := s.families[family];
            && origin.code in s.codePops && NoDuplicates(s.codePops)
            && origin.code in s.trail.codeOf && s.trail.codeOf[origin.code] in s.sessionPops
            && NoDuplicates(s.sessionPops)
            && s.trail.codeOf[origin.code] in s.trail.sessionOf
            && var request := s.trail.sessionOf[s.trail.codeOf[origin.code]];
            && BegunBy(s, family, request)
            && s.trail.requests[request] == origin.grant.request
            && s.trail.requests[request].redirectUri == origin.redirectUri
            && s.trail.requests[request].challenge == S256(origin.verifier) && origin.verifier != ""
            && forall other :: other in s.families && BegunBy(s, other, request) ==> other == family
  {
    ReachableInv(states, steps, i);
    hide ExchangesHold, CallbacksHold;
  }
}
