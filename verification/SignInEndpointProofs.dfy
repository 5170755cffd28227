/** What the requests that lead to a code guarantee, and that they are runs of the sign-in protocol. */
module SignInEndpointProofs {
  import opened Prelude
  import opened OauthState
  import opened Registrations
  import opened Runs
  import opened SignInEndpoint
  import P = SignIn
  import T = TokenEndpoint
  import TP = TokenEndpointProofs

  /** A code is delivered exactly to the browser that approved, for an allowed account, while there is room. */
  lemma DeliveredIff(s: Stores, state: string, cookie: Option<string>, google: Google, allowed: set<string>,
                     code: string, at: Readings)
    ensures var live := Purged(s.sessions, at.session);
            AfterCallback(s, state, cookie, google, allowed, code, at).1.CodeDelivered?
            <==> && !WebFlow(s, state, at) && Plain(state) in live && cookie == Some(state)
                 && google.SignedIn? && google.email in allowed
                 && Others(Purged(s.codes, at.code), Digest(code)) < P.MAX_ENTRIES
  {
    hide Others;
  }

  predicate WebFlow(s: Stores, state: string, at: Readings) {
    Plain(state) in Purged(s.web, at.web)
  }

  /**
   * A session is started exactly for a live web flow and an allowed account. It is the one Google
   * named; the flow is spent, and the MCP stores are as they were.
   */
  lemma SessionStartedIff(s: Stores, state: string, cookie: Option<string>, google: Google, allowed: set<string>,
                          code: string, at: Readings)
    ensures var (after, reply) := AfterCallback(s, state, cookie, google, allowed, code, at);
            && (reply.SessionStarted? <==> WebFlow(s, state, at) && google.SignedIn? && google.email in allowed)
            && (reply.SessionStarted? ==>
                  && reply == SessionStarted(google.subject, google.email)
                  && after == s.(web := Purged(s.web, at.web) - {Plain(state)}))
  {
    hide StoreOrRefuse;
  }

  /** Whatever its callback came to, a state is spent: presented again it is answered as unknown. */
  lemma StateIsSingleUse(s: Stores, state: string, cookie: Option<string>, google: Google, allowed: set<string>,
                         code: string, at: Readings, cookie': Option<string>, google': Google, allowed': set<string>,
                         code': string, at': Readings)
    requires WebFlow(s, state, at) ==> Plain(state) !in s.sessions
    ensures var after := AfterCallback(s, state, cookie, google, allowed, code, at).0;
            && AfterCallback(after, state, cookie', google', allowed', code', at').1 == InvalidState
            && AfterCallback(after, state, cookie', google', allowed', code', at').0.codes == after.codes
  {
    hide StoreOrRefuse;
  }

  // --- One request alone is a run of the protocol ---------------------------------

  lemma TickIsNext(m: P.State, until: Time)
    requires m.clock <= until
    ensures P.Next(m, P.Tick(until - m.clock), m.(clock := until))
  {}

  lemma ClientsAreNext(m: P.State, clients: map<string, set<string>>)
    ensures P.Next(m, P.Registrations(clients), m.(clients := clients))
  {}

  /** The clients an authorize request finds, as the protocol sees them. */
  function Seen(live: Rows<Client>): map<string, set<string>> {
    map id | id in (set k | k in live && k.Plain? :: k.value) :: Elements(live[Plain(id)].values.redirectUris)
  }

  function Authorized(m: P.State, state: string, request: P.Request, sessions: Rows<P.Request>): P.State {
    m.(sessions := sessions,
       trail := m.trail.(requests := m.trail.requests + [request],
                         sessionOf := m.trail.sessionOf[Plain(state) := |m.trail.requests|]))
  }

  lemma IsAcceptable(m: P.State, live: Rows<Client>, request: P.Request, responseType: string, configured: bool,
                     safe: string -> bool)
    requires RequestRefusal(request, responseType, configured).None? && ClientRefusal(live, request, safe).None?
    requires m.clients == Seen(live)
    ensures P.Acceptable(m, request)
  {
    assert Plain(request.client).value == request.client;
    assert request.redirectUri in Elements(live[Plain(request.client)].values.redirectUris);
  }

  lemma AuthorizeIsNext(m: P.State, state: string, request: P.Request, sessions: Rows<P.Request>)
    requires P.Acceptable(m, request) && Plain(state) !in m.trail.sessionOf
    requires Stored(m.sessions, Plain(state), Row(request, m.clock + P.SESSION_TTL), P.MAX_ENTRIES, m.clock, sessions)
    ensures P.Next(m, P.Authorize(Plain(state), request), Authorized(m, state, request, sessions))
  {
    hide Stored, P.Acceptable, P.AfterPopSession, P.AfterDeliver, P.AfterReadGrant, P.AfterPopCode;
  }

  /** An authorize request that is not refused is the protocol's authorize step, over the clients then live. */
  lemma AuthorizeIsARun(m: P.State, live: Rows<Client>, configured: bool, request: P.Request, responseType: string,
                        safe: string -> bool, state: string, now: Time, sessions: Rows<P.Request>)
    returns (states: seq<P.State>, steps: seq<P.Step>)
    requires m.clock <= now && Plain(state) !in m.trail.sessionOf
    requires RequestRefusal(request, responseType, configured).None? && ClientRefusal(live, request, safe).None?
    requires Stored(m.sessions, Plain(state), Row(request, now + P.SESSION_TTL), P.MAX_ENTRIES, now, sessions)
    ensures Leads(P.Next, states, steps) && states[0] == m
    ensures states[|states| - 1] == Authorized(m.(clock := now, clients := Seen(live)), state, request, sessions)
  {
    hide P.Next, Stored, P.Acceptable, RequestRefusal, ClientRefusal, Seen;
    var waited, ready := m.(clock := now), m.(clock := now, clients := Seen(live));
    TickIsNext(m, now);
    ClientsAreNext(waited, Seen(live));
    IsAcceptable(ready, live, request, responseType, configured, safe);
    AuthorizeIsNext(ready, state, request, sessions);
    states, steps := OneMore(P.Next, [m], [], P.Tick(now - m.clock), waited);
    states, steps := OneMore(P.Next, states, steps, P.Registrations(Seen(live)), ready);
    states, steps := OneMore(P.Next, states, steps, P.Authorize(Plain(state), request),
                             Authorized(ready, state, request, sessions));
  }

  /** What popping the session leaves the callback with. */
  lemma PopResult(m: P.State, p: nat, state: string, approved: bool)
    requires p !in m.callbacks
    ensures var live, t := Purged(m.sessions, m.clock), P.AfterPopSession(m, p, Plain(state), approved);
            && P.Next(m, P.PopSession(p, Plain(state), approved), t)
            && t == m.(
                 sessions := AfterPop(live, Plain(state), m.clock), sessionPops := t.sessionPops,
                 callbacks := m.callbacks[p := if Plain(state) in live && approved
                                               then P.Delivering(Plain(state), live[Plain(state)].values)
                                                   else P.CallbackDone])
  {
    hide P.AfterDeliver, P.AfterReadGrant, P.AfterPopCode;
    P.LiveIsPoppable(m.sessions, Plain(state), m.clock);
    hide Purged, Poppable, AfterPop;
  }

  lemma DeliverResult(m: P.State, p: nat, session: StoredKey, request: P.Request, code: string, subject: string,
                      email: string)
    requires p in m.callbacks && m.callbacks[p] == P.Delivering(session, request) && Digest(code) !in m.trail.codeOf
    ensures var grant := P.Code(request, subject, email);
            var t := P.AfterDeliver(m, p, session, Digest(code), grant);
            var stored := StoreOrRefuse(m.codes, Digest(code), Row(grant, m.clock + P.CODE_TTL), P.MAX_ENTRIES,
                                        m.clock);
            && P.Next(m, P.Deliver(p, Digest(code), subject, email), t)
            && t == m.(codes := if stored.Some? then stored.value else m.codes,
                       callbacks := m.callbacks[p := P.CallbackDone],
                       trail := if stored.Some? then m.trail.(codeOf := m.trail.codeOf[Digest(code) := session])
                                else m.trail)
  {
    hide StoreOrRefuse, P.AfterPopSession, P.AfterReadGrant, P.AfterPopCode;
  }

  lemma GiveUpIsNext(m: P.State, p: nat)
    requires p in m.callbacks && m.callbacks[p].Delivering?
    ensures P.Next(m, P.GiveUp(p), m.(callbacks := m.callbacks[p := P.CallbackDone]))
  {
    hide P.AfterPopSession, P.AfterDeliver, P.AfterReadGrant, P.AfterPopCode;
  }

  /** The sessions and codes a callback leaves. */
  lemma CallbackResult(s: Stores, state: string, cookie: Option<string>, google: Google, allowed: set<string>,
                       code: string, at: Readings)
    ensures var live, after := Purged(s.sessions, at.session),
            AfterCallback(s, state, cookie, google, allowed, code, at).0;
            && after.clients == s.clients
            && after.sessions == (if WebFlow(s, state, at) then s.sessions
                                  else AfterPop(live, Plain(state), at.session))
            && after.codes == if && !WebFlow(s, state, at) && Plain(state) in live && cookie == Some(state)
                                 && google.SignedIn? && google.email in allowed
                              then var stored := StoreOrRefuse(s.codes, Digest(code),
                                     Row(P.Code(live[Plain(state)].values, google.subject, google.email),
                                         at.code + P.CODE_TTL),
                                     P.MAX_ENTRIES, at.code);
                                   if stored.Some? then stored.value else s.codes
                              else s.codes
  {
    P.LiveIsPoppable(s.sessions, Plain(state), at.session);
    P.LiveIsPoppable(s.web, Plain(state), at.web);
    hide StoreOrRefuse, Poppable, AfterPop, Purged;
  }

  /** What a callback leaves of the protocol's state besides its stores. */
  ghost predicate CallbackEnds(m: P.State, t: P.State, p: nat, code: string, now: Time) {
    && t.clock == now && t.families == m.families && t.exchanges == m.exchanges
    && t.callbacks.Keys <= m.callbacks.Keys + {p}
    && t.trail.requests == m.trail.requests && t.trail.sessionOf == m.trail.sessionOf
    && t.trail.codeOf.Keys <= m.trail.codeOf.Keys + {Digest(code)}
  }

  /**
   * A callback, from wherever the protocol stands, is a run of it: it pops its session, and delivers
   * its code or gives up, in the same sessions and codes and at its last clock reading.
   */
  lemma CallbackIsARun(m: P.State, s: Stores, p: nat, state: string, cookie: Option<string>, google: Google,
                       allowed: set<string>, code: string,
                       at: Readings) returns (states: seq<P.State>, steps: seq<P.Step>)
    requires m.sessions == s.sessions && m.codes == s.codes && m.clock <= at.web <= at.session <= at.code
    requires p !in m.callbacks && Digest(code) !in m.trail.codeOf
    ensures Leads(P.Next, states, steps) && states[0] == m && CallbackEnds(m, states[|states| - 1], p, code, at.code)
    ensures var after, t := AfterCallback(s, state, cookie, google, allowed, code, at).0, states[|states| - 1];
            t.sessions == after.sessions && t.codes == after.codes
  {
    hide AfterCallback, P.AfterPopSession, P.Next, Purged, StoreOrRefuse, AfterPop, WebFlow;
    CallbackResult(s, state, cookie, google, allowed, code, at);
    if WebFlow(s, state, at) {
      TickIsNext(m, at.code);
      states, steps := OneMore(P.Next, [m], [], P.Tick(at.code - m.clock), m.(clock := at.code));
    } else {
      var waited, approved, live := m.(clock := at.session), cookie == Some(state), Purged(s.sessions, at.session);
      TickIsNext(m, at.session);
      PopResult(waited, p, state, approved);
      var popped := P.AfterPopSession(waited, p, Plain(state), approved);
      TickIsNext(popped, at.code);
      var late := popped.(clock := at.code);
      states, steps := OneMore(P.Next, [m], [], P.Tick(at.session - m.clock), waited);
      states, steps := OneMore(P.Next, states, steps, P.PopSession(p, Plain(state), approved), popped);
      states, steps := OneMore(P.Next, states, steps, P.Tick(at.code - at.session), late);
      if Plain(state) in live && approved {
        var last, step := DeliveringEnds(late, p, Plain(state), live[Plain(state)].values, google, allowed, code);
        states, steps := OneMore(P.Next, states, steps, step, last);
      }
    }
  }

  /** Once popped, a flow delivers its code or gives up. */
  lemma DeliveringEnds(m: P.State, p: nat, session: StoredKey, request: P.Request, google: Google, allowed: set<string>,
                       code: string)
    returns (last: P.State, step: P.Step)
    requires p in m.callbacks && m.callbacks[p] == P.Delivering(session, request) && Digest(code) !in m.trail.codeOf
    ensures P.Next(m, step, last) && last.sessions == m.sessions && CallbackEnds(m, last, p, code, m.clock)
    ensures last.codes == if google.SignedIn? && google.email in allowed
                          then var stored := StoreOrRefuse(m.codes, Digest(code),
                                 Row(P.Code(request, google.subject, google.email), m.clock + P.CODE_TTL),
                                     P.MAX_ENTRIES, m.clock);
                               if stored.Some? then stored.value else m.codes
                          else m.codes
  {
    hide P.Next, P.AfterDeliver, StoreOrRefuse;
    if google.SignedIn? && google.email in allowed {
      DeliverResult(m, p, session, request, code, google.subject, google.email);
      last := P.AfterDeliver(m, p, session, Digest(code), P.Code(request, google.subject, google.email));
      step := P.Deliver(p, Digest(code), google.subject, google.email);
    } else {
      GiveUpIsNext(m, p);
      last, step := m.(callbacks := m.callbacks[p := P.CallbackDone]), P.GiveUp(p);
    }
  }

  // --- The code exchange ----------------------------------------------------------

  /** The exchange reads a grant of its own client's, and the client authenticates. */
  predicate Admits(live: Rows<P.Code>, key: StoredKey, id: string, authenticated: bool) {
    key in live && id != "" && id == live[key].values.request.client && authenticated
  }

  lemma AskResult(m: P.State, p: nat, key: StoredKey, id: string, redirectUri: string, verifier: string,
                  authenticated: bool)
    requires p !in m.exchanges
    ensures var asking := m.(exchanges := m.exchanges[p := P.Asking(key, id, redirectUri, verifier)]);
            var live := Purged(m.codes, m.clock);
            && P.Next(m, P.Ask(p, key, id, redirectUri, verifier), asking)
            && P.Next(asking, P.ReadGrant(p, authenticated), m.(
                 codes := live,
                 exchanges := m.exchanges[p := if Admits(live, key, id, authenticated)
                                               then P.Admitted(key, redirectUri, verifier) else P.ExchangeDone]))
  {
    hide P.AfterPopSession, P.AfterDeliver, P.AfterPopCode, Purged;
    var live := Purged(m.codes, m.clock);
    var e := if Admits(live, key, id, authenticated) then P.Admitted(key, redirectUri, verifier) else P.ExchangeDone;
    assert m.exchanges[p := P.Asking(key, id, redirectUri, verifier)][p := e] == m.exchanges[p := e];
  }

  lemma PopCodeResult(m: P.State, p: nat, key: StoredKey, redirectUri: string, verifier: string)
    requires p in m.exchanges && m.exchanges[p] == P.Admitted(key, redirectUri, verifier)
    ensures var live, t := Purged(m.codes, m.clock), P.AfterPopCode(m, p, m.exchanges[p]);
            && P.Next(m, P.PopCode(p), t)
            && t == m.(
                 codes := AfterPop(live, key, m.clock), codePops := t.codePops,
                 exchanges := m.exchanges[p :=
                                if key in live && P.Verifies(live[key].values.request, redirectUri, verifier)
                                then P.Redeemed(P.Origin(key, live[key].values, redirectUri, verifier))
                                else P.ExchangeDone])
  {
    hide P.AfterPopSession, P.AfterDeliver, P.AfterReadGrant;
    P.LiveIsPoppable(m.codes, key, m.clock);
    hide Purged, Poppable, AfterPop, P.Verifies;
  }

  lemma RedeemedResult(m: P.State, p: nat, family: nat, origin: P.Origin)
    requires p in m.exchanges && m.exchanges[p] == P.Redeemed(origin)
             && family !in m.families
    ensures var done := m.(exchanges := m.exchanges[p := P.ExchangeDone]);
            && P.Next(m, P.Refuse(p), done)
            && P.Next(m, P.BeginFamily(p, family), done.(families := m.families[family := origin]))
  {
    hide P.AfterPopSession, P.AfterDeliver, P.AfterReadGrant, P.AfterPopCode;
  }

  /** The codes a code exchange leaves, and what it redeemed. */
  lemma RedemptionCodes(s: T.Stores, allowed: set<string>, presented: string, redirectUri: string, id: string,
                        secret: string, verifier: string, token: string, family: nat, at: T.Readings)
    ensures var key, live := Digest(presented), Purged(s.codes, at.grant);
            var later := Purged(live, at.consume);
            var result := T.AfterRedemption(s, allowed, presented, redirectUri, id, secret, verifier, token, family,
                                            at);
            var redeemed := TP.Redeemed(s, presented, redirectUri, id, secret, verifier, at);
            && (result.1.Issued? ==> redeemed.Some?)
            && if Admits(live, key, id, T.Authenticates(Purged(s.clients, at.client), id, secret))
               then result.0.codes == AfterPop(later, key, at.consume)
                    && redeemed == if key in later && P.Verifies(later[key].values.request, redirectUri, verifier)
                         then Some(later[key].values) else None
               else result.0.codes == live && redeemed == None
  {
    P.LiveIsPoppable(Purged(s.codes, at.grant), Digest(presented), at.consume);
    hide T.Authenticates, P.Verifies, StoreOrRefuse, Extended, WithoutFamily, Poppable, AfterPop, Purged;
  }

  /** What a code exchange leaves of the protocol's state besides its codes. */
  ghost predicate ExchangeEnds(m: P.State, t: P.State, p: nat, families: map<nat, P.Origin>, now: Time) {
    && t.clock == now && t.families == families && t.callbacks == m.callbacks && t.trail == m.trail
    && t.sessions == m.sessions
    && t.exchanges.Keys == m.exchanges.Keys + {p}
  }

  /**
   * A code exchange, from wherever the protocol stands, is a run of it: asked, admitted, popped and
   * verified as far as it got, and beginning its family exactly when it is answered with tokens.
   */
  lemma RedemptionIsARun(m: P.State, s: T.Stores, p: nat, allowed: set<string>, presented: string, redirectUri: string,
                         id: string, secret: string, verifier: string, token: string, family: nat, at: T.Readings)
    returns (states: seq<P.State>, steps: seq<P.Step>)
    requires m.codes == s.codes && m.clock <= at.grant && TP.InOrder(at) && p !in m.exchanges && family !in m.families
    ensures Leads(P.Next, states, steps) && states[0] == m
    ensures var result := T.AfterRedemption(s, allowed, presented, redirectUri, id, secret, verifier, token, family,
                                            at);
            var redeemed := TP.Redeemed(s, presented, redirectUri, id, secret, verifier, at);
            && states[|states| - 1].codes == result.0.codes
            && (result.1.Issued? ==> redeemed.Some?)
            && ExchangeEnds(m, states[|states| - 1], p,
                            if result.1.Issued? && redeemed.Some?
                            then m.families[family := P.Origin(Digest(presented), redeemed.value, redirectUri,
                                                                verifier)]
                            else m.families,
                            at.issue)
  {
    hide P.Next, Purged, AfterPop, T.AfterRedemption, TP.Redeemed, T.Authenticates, P.Verifies;
    var key, authenticated := Digest(presented), T.Authenticates(Purged(s.clients, at.client), id, secret);
    var result := T.AfterRedemption(s, allowed, presented, redirectUri, id, secret, verifier, token, family, at);
    RedemptionCodes(s, allowed, presented, redirectUri, id, secret, verifier, token, family, at);
    var waited := m.(clock := at.grant);
    TickIsNext(m, at.grant);
    AskResult(waited, p, key, id, redirectUri, verifier, authenticated);
    var live := Purged(s.codes, at.grant);
    var e := if Admits(live, key, id, authenticated) then P.Admitted(key, redirectUri, verifier) else P.ExchangeDone;
    var read := waited.(codes := live, exchanges := m.exchanges[p := e]);
    states, steps := OneMore(P.Next, [m], [], P.Tick(at.grant - m.clock), waited);
    states, steps := OneMore(P.Next, states, steps, P.Ask(p, key, id, redirectUri, verifier),
                                 waited.(exchanges := m.exchanges[p := P.Asking(key, id, redirectUri, verifier)]));
    states, steps := OneMore(P.Next, states, steps, P.ReadGrant(p, authenticated), read);
    if Admits(live, key, id, authenticated) {
      states, steps := EndsAtPop(states, steps, p, key, redirectUri, verifier, family, result.1.Issued?, at);
    } else {
      TickIsNext(read, at.issue);
      states, steps := OneMore(P.Next, states, steps, P.Tick(at.issue - at.grant), read.(clock := at.issue));
    }
  }

  /** From the pop on: the code verified and its family begun, or nothing more. */
  lemma EndsAtPop(states: seq<P.State>, steps: seq<P.Step>, p: nat, key: StoredKey, redirectUri: string,
                  verifier: string, family: nat, issued: bool,
                  at: T.Readings) returns (states': seq<P.State>, steps': seq<P.Step>)
    requires Leads(P.Next, states, steps) && at.grant <= at.consume <= at.issue
    requires var m := states[|states| - 1];
             m.clock == at.grant && p in m.exchanges && m.exchanges[p] == P.Admitted(key, redirectUri, verifier)
                 && family !in m.families
    ensures Leads(P.Next, states', steps') && states'[0] == states[0]
    ensures var m, t := states[|states| - 1], states'[|states'| - 1];
            var later := Purged(m.codes, at.consume);
            && t.codes == AfterPop(later, key, at.consume)
            && ExchangeEnds(m, t, p,
                            if issued && key in later && P.Verifies(later[key].values.request, redirectUri, verifier)
                            then m.families[family := P.Origin(key, later[key].values, redirectUri, verifier)]
                            else m.families,
                            at.issue)
  {
    hide P.Next, P.AfterPopCode, Purged, AfterPop, P.Verifies;
    var m := states[|states| - 1];
    var waited, later := m.(clock := at.consume), Purged(m.codes, at.consume);
    TickIsNext(m, at.consume);
    PopCodeResult(waited, p, key, redirectUri, verifier);
    var popped := P.AfterPopCode(waited, p, waited.exchanges[p]);
    TickIsNext(popped, at.issue);
    var late := popped.(clock := at.issue);
    states', steps' := OneMore(P.Next, states, steps, P.Tick(at.consume - at.grant), waited);
    states', steps' := OneMore(P.Next, states', steps', P.PopCode(p), popped);
    states', steps' := OneMore(P.Next, states', steps', P.Tick(at.issue - at.consume), late);
    if issued && key in later && P.Verifies(later[key].values.request, redirectUri, verifier) {
      var origin := P.Origin(key, later[key].values, redirectUri, verifier);
      RedeemedResult(late, p, family, origin);
      states', steps' := OneMore(P.Next, states', steps', P.BeginFamily(p, family),
                                     late.(exchanges := late.exchanges[p := P.ExchangeDone],
                                           families := late.families[family := origin]));
    }
  }
}
