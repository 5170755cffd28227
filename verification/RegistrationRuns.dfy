/** A history of the connector is a run of its registrations: what each request stores, extends and purges. */
module RegistrationRuns {
  import opened Prelude
  import opened OauthState
  import opened Connector
  import opened Runs
  import G = Registrations
  import E = SignInEndpoint
  import T = TokenEndpoint
  import TP = TokenEndpointProofs
  import R = Rotation

  type Client = G.Client

  // --- Single steps ---------------------------------------------------------------

  /** What POST /oauth/register stores is the Register event. */
  lemma RegisterIsNext(g: G.State, id: string, client: Client, now: Time, clients: Rows<Client>)
    requires g.clock <= now && id !in g.registered
    requires Stored(g.clients, Plain(id), Row(client, now + G.UNUSED_CLIENT_TTL), G.MAX_CLIENTS, now, clients)
    ensures G.Next(g, G.Register(id, client, now),
                   g.(clock := now, clients := clients, registered := g.registered[id := now]))
  {
    hide Stored;
  }

  lemma PurgeIsNext(g: G.State, ofClients: bool, now: Time)
    requires g.clock <= now
    ensures G.Next(g, G.Purge(ofClients, now),
                   if ofClients then g.(clock := now, clients := Purged(g.clients, now))
                   else g.(clock := now, tokens := Purged(g.tokens, now)))
  {
    hide Stored, Purged;
  }

  lemma ConsumeIsNext(g: G.State, key: StoredKey, now: Time)
    requires g.clock <= now
    ensures G.Next(g, G.Consume(key, now), g.(clock := now, tokens := Consumed(g.tokens, key, now).0))
  {
    hide Stored, Consumed;
  }

  lemma ForgetIsNext(g: G.State, family: nat) returns (gone: set<StoredKey>)
    ensures G.Next(g, G.Forget(gone), g.(tokens := WithoutFamily(g.tokens, family)))
  {
    gone := set k | k in g.tokens && g.tokens[k].values.family == family;
    assert g.tokens - gone == WithoutFamily(g.tokens, family);
    hide Stored, WithoutFamily;
  }

  /** What an issuing that was not refused leaves is the Issue event, or the family forgotten. */
  lemma IssueIsAnEvent(states: seq<G.State>, events: seq<G.Event>, seen: T.Stores, committed: T.Stores, grant: T.Grant,
                       allowed: set<string>, token: string, now: Time)
    returns (states': seq<G.State>, events': seq<G.Event>)
    requires Leads(G.Next, states, events)
    requires var g := states[|states| - 1];
             g.clients == seen.clients && g.tokens == seen.tokens && g.clock <= now && grant.client in g.registered
    requires T.AfterIssue(seen, committed, grant, allowed, token, now).1 != T.AtCapacity
    ensures Leads(G.Next, states', events') && states'[0] == states[0]
    ensures var g, after, t := states[|states| - 1], T.AfterIssue(seen, committed, grant, allowed, token, now).0,
            states'[|states'| - 1];
            t.clients == after.clients && t.tokens == after.tokens && t.clock <= now && t.registered == g.registered
  {
    var g := states[|states| - 1];
    if grant.email !in allowed {
      var gone := ForgetIsNext(g, grant.family);
      hide G.Next, WithoutFamily;
      states', events' := OneMore(G.Next, states, events, G.Forget(gone),
                                  g.(tokens := WithoutFamily(g.tokens, grant.family)));
    } else {
      var t := Issued(g, grant, token, now);
      hide G.Next, Extended, Purged, Others;
      states', events' := OneMore(G.Next, states, events,
                                  G.Issue(Digest(token), grant.Token().values, grant.deadline, now), t);
    }
  }

  function Issued(g: G.State, grant: T.Grant, token: string, now: Time): G.State {
    g.(clock := now, clients := Extended(g.clients, Plain(grant.client), grant.deadline),
       tokens := Purged(g.tokens, now)[Digest(token) := grant.Token()], used := g.used + {grant.client})
  }

  // --- Whole requests ---------------------------------------------------------------

  lemma TokenClientsRegistered(g: G.State, key: StoredKey)
    requires G.Inv(g) && key in g.tokens
    ensures g.tokens[key].values.client in g.registered
  {
    hide G.LivesAsPromised;
  }

  lemma LiveClientsRegistered(g: G.State, id: string, now: Time)
    requires G.Inv(g) && Plain(id) in Purged(g.clients, now)
    ensures id in g.registered
  {
    assert G.LivesAsPromised(g, id);
  }

  /** A refresh request, as far as it got: purges, its consume, and its issue or the family forgotten. */
  lemma RotationIsARun(g: G.State, s: T.Stores, allowed: set<string>, presented: string, id: string, secret: string,
                       token: string, at: T.Readings)
    returns (states: seq<G.State>, events: seq<G.Event>)
    requires G.Inv(g) && g.clients == s.clients && g.tokens == s.tokens && g.clock <= at.grant && TP.InOrder(at)
    requires T.IdentityKept(s.tokens) && presented != ""
    ensures Leads(G.Next, states, events) && states[0] == g
    ensures var after, t := T.AfterRotation(s, allowed, presented, id, secret, token, at).0, states[|states| - 1];
            t.clients == after.clients && t.tokens == after.tokens && t.clock <= at.issue
                && t.registered == g.registered
  {
    hide G.Next, T.AfterIssue, T.Authenticates, T.IdentityKept, G.Inv, Purged, WithoutFamily;
    TP.RotationCases(s, allowed, presented, id, secret, token, at);
    hide T.AfterRotation;
    var key, live := Digest(presented), Purged(s.tokens, at.grant);
    var read := g.(clock := at.grant, tokens := live);
    PurgeIsNext(g, false, at.grant);
    states, events := OneMore(G.Next, [g], [], G.Purge(false, at.grant), read);
    if key in live && id != "" && live[key].values.client == id {
      var checked := read.(clock := at.client, clients := Purged(s.clients, at.client));
      PurgeIsNext(read, true, at.client);
      states, events := OneMore(G.Next, states, events, G.Purge(true, at.client), checked);
      if T.Authenticates(checked.clients, id, secret) {
        PurgedOnly(s.tokens, at.grant, key);
        TokenClientsRegistered(g, key);
        states, events := FromConsume(states, events, s, live, key, allowed, token, at);
      }
    }
  }

  lemma PurgedOnly<V>(rows: Rows<V>, now: Time, key: StoredKey)
    ensures key in Purged(rows, now) ==> key in rows && Purged(rows, now)[key] == rows[key]
  {}

  /** From the consume on. A refusal at capacity took nothing. */
  lemma FromConsume(states: seq<G.State>, events: seq<G.Event>, s: T.Stores, live: Rows<Refresh>, key: StoredKey,
                    allowed: set<string>, token: string, at: T.Readings)
    returns (states': seq<G.State>, events': seq<G.Event>)
    requires Leads(G.Next, states, events) && TP.InOrder(at) && T.IdentityKept(live) && key in live
    requires var g := states[|states| - 1];
             && g.clients == Purged(s.clients, at.client) && g.tokens == live && g.clock == at.client
             && live[key].values.client in g.registered
    ensures Leads(G.Next, states', events') && states'[0] == states[0]
    ensures var g, t := states[|states| - 1], states'[|states'| - 1];
            var checked := s.(tokens := live, clients := Purged(s.clients, at.client));
            var (tokens, consumed) := Consumed(Purged(live, at.consume), key, at.consume);
            && t.clock <= at.issue && t.registered == g.registered
            && match consumed
               case None => t.clients == checked.clients && t.tokens == WithoutFamily(tokens, live[key].values.family)
               case Some(row) =>
                 var v := row.values;
                 var after := T.AfterIssue(checked.(tokens := tokens), checked,
                   Grant(v, row.expiresAt), allowed, token, at.issue).0;
                 t.clients == after.clients && t.tokens == after.tokens
  {
    hide G.Next, T.AfterIssue, WithoutFamily, T.IdentityKept;
    var g := states[|states| - 1];
    var checked := s.(tokens := live, clients := g.clients);
    var (tokens, consumed) := Consumed(Purged(live, at.consume), key, at.consume);
    TP.ConsumedKeepsIdentity(live, key, at.consume);
    PurgedOnly(live, at.consume, key);
    var purged := g.(clock := at.consume, tokens := Purged(live, at.consume));
    PurgeIsNext(g, false, at.consume);
    ConsumeIsNext(purged, key, at.consume);
    hide Purged;
    match consumed {
      case None =>
        var family := live[key].values.family;
        var gone := ForgetIsNext(purged, family);
        states', events' := OneMore(G.Next, states, events, G.Purge(false, at.consume), purged);
        states', events' := OneMore(G.Next, states', events', G.Forget(gone),
                                    purged.(tokens := WithoutFamily(purged.tokens, family)));
      case Some(row) =>
        var grant, seen := Grant(row.values, row.expiresAt), checked.(tokens := tokens);
        if T.AfterIssue(seen, checked, grant, allowed, token, at.issue).1 == T.AtCapacity {
          RefusedAtCapacity(seen, checked, grant, allowed, token, at.issue);
          states', events' := states, events;
        } else {
          states', events' := OneMore(G.Next, states, events, G.Purge(false, at.consume), purged);
          states', events' := OneMore(G.Next, states', events', G.Consume(key, at.consume), purged.(tokens := tokens));
          states', events' := IssueIsAnEvent(states', events', seen, checked, grant, allowed, token, at.issue);
        }
    }
  }

  /** The grant an unconsumed row makes. */
  function Grant(v: Refresh, deadline: Time): T.Grant
    requires v.subject.Some? && v.email.Some?
  {
    T.Grant(v.subject.value, v.email.value, v.client, v.scope, v.family, deadline)
  }

  lemma RefusedAtCapacity(seen: T.Stores, committed: T.Stores, grant: T.Grant, allowed: set<string>, token: string,
                          now: Time)
    requires T.AfterIssue(seen, committed, grant, allowed, token, now).1 == T.AtCapacity
    ensures T.AfterIssue(seen, committed, grant, allowed, token, now).0 == committed
  {
    hide StoreOrRefuse, WithoutFamily, Extended;
  }

  /** A code exchange, as far as it got: its client read, and its issue. */
  lemma RedemptionIsARun(g: G.State, s: T.Stores, allowed: set<string>, presented: string, redirectUri: string,
                         id: string, secret: string, verifier: string, token: string, family: nat, at: T.Readings)
    returns (states: seq<G.State>, events: seq<G.Event>)
    requires G.Inv(g) && g.clients == s.clients && g.tokens == s.tokens && g.clock <= at.grant && TP.InOrder(at)
    requires WithoutFamily(s.tokens, family) == s.tokens
    ensures Leads(G.Next, states, events) && states[0] == g
    ensures var t := states[|states| - 1];
            var after := T.AfterRedemption(s, allowed, presented, redirectUri, id, secret, verifier, token, family,
                                           at).0;
            t.clients == after.clients && t.tokens == after.tokens && t.clock <= at.issue
                && t.registered == g.registered
  {
    hide G.Next, T.AfterIssue, G.Inv, Purged, WithoutFamily, TP.Redeemed, T.AfterRedemption;
    var seen := TP.RedemptionCases(s, allowed, presented, redirectUri, id, secret, verifier, token, family, at);
    var redeemed := TP.Redeemed(s, presented, redirectUri, id, secret, verifier, at);
    var result := T.AfterRedemption(s, allowed, presented, redirectUri, id, secret, verifier, token, family, at);
    var checked := g.(clock := at.client, clients := Purged(s.clients, at.client));
    PurgeIsNext(g, true, at.client);
    states, events := [g], [];
    if redeemed.Some? || result.0.clients == seen.clients {
      states, events := OneMore(G.Next, states, events, G.Purge(true, at.client), checked);
    }
    if redeemed.Some? {
      var grant := TP.FirstGrant(redeemed.value, family, at.issue);
      LiveClientsRegistered(g, redeemed.value.request.client, at.client);
      if result.1 == T.AtCapacity {
        RefusedAtCapacity(seen, seen, grant, allowed, token, at.issue);
      } else {
        states, events := IssueIsAnEvent(states, events, seen, seen, grant, allowed, token, at.issue);
      }
    }
  }

  /** After n requests the registrations stand at the same rows. */
  ghost predicate Follows(s: Site, g: G.State) {
    && g.clients == s.clients && g.tokens == s.tokens && g.clock <= s.clock
    && forall id :: id in g.registered ==> id in s.drawn
  }

  lemma RegisterFollows(s: Site, r: Request, t: Site, safe: string -> bool, g: G.State)
    returns (states: seq<G.State>, events: seq<G.Event>)
    requires Follows(s, g) && r.Register? && Handles(safe, s, r, t)
    ensures Leads(G.Next, states, events) && states[0] == g && Follows(t, states[|states| - 1])
  {
    hide G.Next, Stored, E.RegistrationRefusal;
    states, events := [g], [];
    if E.RegistrationRefusal(r.authMethod, r.redirectUris, safe).None? {
      var client := G.Client(r.authMethod == "none", Digest(r.secret), r.redirectUris);
      RegisterIsNext(g, r.id, client, r.now, t.clients);
      states, events := OneMore(G.Next, states, events, G.Register(r.id, client, r.now),
                                     g.(clock := r.now, clients := t.clients,
                                        registered := g.registered[r.id := r.now]));
    }
  }

  lemma AuthorizeFollows(s: Site, r: Request, t: Site, safe: string -> bool, g: G.State)
    returns (states: seq<G.State>, events: seq<G.Event>)
    requires Follows(s, g) && r.Authorize? && Handles(safe, s, r, t)
    ensures Leads(G.Next, states, events) && states[0] == g && Follows(t, states[|states| - 1])
  {
    states, events := [g], [];
    if E.RequestRefusal(r.request, r.responseType, r.configured).None? {
      PurgeIsNext(g, true, r.lookedUpAt);
      hide G.Next, Stored, Purged;
      states, events := OneMore(G.Next, states, events, G.Purge(true, r.lookedUpAt),
                                     g.(clock := r.lookedUpAt, clients := Purged(g.clients, r.lookedUpAt)));
    }
  }

  /** One request, whatever it is. */
  lemma RequestFollows(s: Site, r: Request, t: Site, safe: string -> bool, g: G.State)
    returns (states: seq<G.State>, events: seq<G.Event>)
    requires Follows(s, g) && Handles(safe, s, r, t) && G.Inv(g) && T.IdentityKept(s.tokens)
    requires r.Redeem? ==> WithoutFamily(s.tokens, r.family) == s.tokens
    ensures Leads(G.Next, states, events) && states[0] == g && Follows(t, states[|states| - 1])
  {
    hide G.Next, G.Inv, Stored, Purged, WithoutFamily, T.IdentityKept, T.AfterRedemption;
    match r
    case Register(_, _, _, _, _) => states, events := RegisterFollows(s, r, t, safe, g);
    case Authorize(_, _, _, _, _, _) => states, events := AuthorizeFollows(s, r, t, safe, g);
    case Callback(state, cookie, google, code, at) =>
      hide E.AfterCallback;
      states, events := [g], [];
    case Redeem(presented, redirectUri, id, secret, verifier, token, family, at) =>
      states, events := RedemptionIsARun(g, s.TokenStores(), s.allowed, presented, redirectUri, id, secret, verifier,
                                         token, family, at);
    case Rotate(presented, id, secret, token, at) =>
      if presented == "" {
        states, events := [g], [];
      } else {
        hide T.AfterRotation;
        states, events := RotationIsARun(g, s.TokenStores(), s.allowed, presented, id, secret, token, at);
      }
    case _ => states, events := [g], [];
  }

  /** Any history of whole requests is a run of the registrations' events, from the beginning, at the same rows. */
  lemma {:induction false} HistoryIsARun(safe: string -> bool, allowed: set<string>, sites: seq<Site>,
                                         requests: seq<Request>, n: nat)
    returns (states: seq<G.State>, events: seq<G.Event>)
    requires History(safe, allowed, sites, requests) && n <= |requests|
    ensures G.Run(states, events) && Follows(sites[n], states[|states| - 1])
  {
    hide G.Next, Handles;
    if n == 0 {
      states, events := [G.Initial()], [];
    } else {
      states, events := HistoryIsARun(safe, allowed, sites, requests, n - 1);
      var g, q := states[|states| - 1], n - 1;
      G.RegistrationsLiveAsPromised(states, events, |states| - 1);
      NewFamilyHasNoRows(safe, allowed, sites, requests, q);
      hide Follows, G.Inv;
      var states', events' := RequestFollows(sites[q], requests[q], sites[n], safe, g);
      states, events := Joined(G.Next, states, events, states', events');
    }
  }

  lemma NewFamilyHasNoRows(safe: string -> bool, allowed: set<string>, sites: seq<Site>, requests: seq<Request>, q: nat)
    requires History(safe, allowed, sites, requests) && q < |requests|
    ensures T.IdentityKept(sites[q].tokens)
    ensures requests[q].Redeem? ==> WithoutFamily(sites[q].tokens, requests[q].family) == sites[q].tokens
  {
    assert Handles(safe, sites[q], requests[q], sites[q + 1]);
    var ps, pSteps, rs, rSteps := Connector.HistoryIsARun(safe, allowed, sites, requests, q);
    R.ReachableInv(rs, rSteps, allowed, |rs| - 1);
    var w := rs[|rs| - 1];
    IdentityFollows(w);
    hide R.Inv, R.Next, T.IdentityKept, WithoutFamily;
    if requests[q].Redeem? {
      assert requests[q].family !in w.families;
      TP.NoRowsOfNewFamily(w, requests[q].family);
    }
  }

  /** Between requests, a registration still stored outlives every refresh token it holds, within the cap. */
  lemma RegistrationsOutliveTheirTokens(safe: string -> bool, allowed: set<string>, sites: seq<Site>,
                                        requests: seq<Request>, n: nat, k: StoredKey)
    requires History(safe, allowed, sites, requests) && n <= |requests| && k in sites[n].tokens
    ensures var s, client := sites[n], Plain(sites[n].tokens[k].values.client);
            && |s.clients| <= G.MAX_CLIENTS
            && (client in s.clients ==> s.clients[client].expiresAt >= s.tokens[k].expiresAt)
  {
    hide G.Next, Handles;
    var states, events := HistoryIsARun(safe, allowed, sites, requests, n);
    G.RegistrationsLiveAsPromised(states, events, |states| - 1);
    var g, id := states[|states| - 1], sites[n].tokens[k].values.client;
    if Plain(id) in g.clients {
      assert G.LivesAsPromised(g, id);
    }
  }
}
