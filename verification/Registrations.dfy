/**
 * How long a client registration lives (backend/mcp_oauth.py): an hour until a token is stored for
 * it, then as long as the latest refresh token it holds; and what a full store evicts.
 */
module Registrations {
  import opened Prelude
  import opened OauthState
  import opened Runs

  const UNUSED_CLIENT_TTL: Time := 3600
  const MAX_CLIENTS: nat := 100

  /** `secret` is the digest of the secret handed out; a public client presents none. */
  datatype Client = Client(isPublic: bool, secret: StoredKey, redirectUris: seq<string>)

  /** The two stores a registration's life depends on, with the history the claim is about. */
  datatype State = State(
    clock: Time, clients: Rows<Client>, tokens: Rows<Refresh>, registered: map<string, Time>, used: set<string>)

  datatype Event =
    | Register(id: string, client: Client, now: Time)       // POST /oauth/register
    | Issue(token: StoredKey, grant: Refresh, deadline: Time, now: Time)  // a token stored, then its client extended
    | Purge(ofClients: bool, now: Time)                     // any other access to either store
    | Forget(gone: set<StoredKey>)                          // tokens deleted: a revoked family
    | Consume(token: StoredKey, now: Time)                  // a token marked consumed

  function Initial(): State {
    State(0, map[], map[], map[], {})
  }

  /**
   * Ids are generated, so a registration never reuses one. A token is only issued to a client that
   * registered, though its row may have expired or been evicted since it authenticated.
   */
  ghost predicate Next(s: State, e: Event, t: State) {
    && s.clock <= t.clock
    && match e
    case Register(id, client, now) =>
      && id !in s.registered
      && Stored(s.clients, Plain(id), Row(client, now + UNUSED_CLIENT_TTL), MAX_CLIENTS, now, t.clients)
      && t == s.(clock := now, clients := t.clients, registered := s.registered[id := now])
    case Issue(token, grant, deadline, now) =>
      && grant.client in s.registered
      && t == s.(
        clock := now,
        clients := Extended(s.clients, Plain(grant.client), deadline),
        tokens := Purged(s.tokens, now)[token := Row(grant, deadline)],
        used := s.used + {grant.client})
    case Purge(ofClients, now) =>
      t == if ofClients then s.(clock := now, clients := Purged(s.clients, now))
           else s.(clock := now, tokens := Purged(s.tokens, now))
    case Forget(gone) =>
      t == s.(clock := t.clock, tokens := s.tokens - gone)
    case Consume(token, now) =>
      t == s.(clock := now, tokens := Consumed(s.tokens, token, now).0)
  }

  ghost predicate Run(states: seq<State>, events: seq<Event>) {
    Leads(Next, states, events) && states[0] == Initial()
  }

  /** Between requests: an hour from registration if unused, else no earlier than any of its tokens. */
  ghost predicate LivesAsPromised(s: State, id: string)
    requires Plain(id) in s.clients
  {
    var expiry := s.clients[Plain(id)].expiresAt;
    && id in s.registered
    && (id !in s.used ==> expiry == s.registered[id] + UNUSED_CLIENT_TTL)
    && (id in s.used ==>
          && expiry >= s.registered[id] + UNUSED_CLIENT_TTL
          && forall k :: k in s.tokens && s.tokens[k].values.client == id ==> expiry >= s.tokens[k].expiresAt)
  }

  ghost predicate Inv(s: State) {
    && (forall k :: k in s.clients ==> k.Plain?)
    && (forall id :: Plain(id) in s.clients ==> LivesAsPromised(s, id))
    && (forall k :: k in s.tokens ==> s.tokens[k].values.client in s.used)
    && s.used <= s.registered.Keys
    && (forall id :: id in s.registered ==> s.registered[id] <= s.clock)
    && |s.clients| <= MAX_CLIENTS
  }

  lemma ShrinkKeepsCap(part: Rows<Client>, whole: Rows<Client>)
    requires part.Keys <= whole.Keys
    ensures |part| <= |whole|
  {
    SubsetCardinality(part.Keys, whole.Keys);
    assert |part.Keys| == |part| && |whole.Keys| == |whole|;
  }

  lemma RegisterKeepsInv(s: State, e: Event, t: State)
    requires Inv(s) && e.Register? && Next(s, e, t)
    ensures Inv(t)
  {
    hide Stored;
    var row := Row(e.client, e.now + UNUSED_CLIENT_TTL);
    StoredKeepsCap(s.clients, Plain(e.id), row, MAX_CLIENTS, e.now, t.clients);
    StoredOnlyAdds(s.clients, Plain(e.id), row, MAX_CLIENTS, e.now, t.clients);
    forall id | Plain(id) in t.clients ensures LivesAsPromised(t, id) {
      assert id != e.id ==> LivesAsPromised(s, id);
    }
  }

  lemma IssueKeepsInv(s: State, e: Event, t: State)
    requires Inv(s) && e.Issue? && Next(s, e, t)
    ensures Inv(t)
  {
    ShrinkKeepsCap(t.clients, s.clients);
    forall id | Plain(id) in t.clients ensures LivesAsPromised(t, id) {
      assert LivesAsPromised(s, id);
    }
    assert Plain(e.grant.client) in s.clients ==> LivesAsPromised(s, e.grant.client);
  }

  lemma ShrinkKeepsInv(s: State, t: State)
    requires Inv(s) && s.clock <= t.clock && t.registered == s.registered && t.used == s.used
             && Submap(t.clients, s.clients)
    requires forall k :: k in t.tokens ==>
               && k in s.tokens && t.tokens[k].expiresAt == s.tokens[k].expiresAt
               && t.tokens[k].values.client == s.tokens[k].values.client
    ensures Inv(t)
  {
    assert t.clients.Keys <= s.clients.Keys;
    ShrinkKeepsCap(t.clients, s.clients);
    forall id | Plain(id) in t.clients ensures LivesAsPromised(t, id) {
      assert LivesAsPromised(s, id);
    }
  }

  lemma PurgeKeepsInv(s: State, ofClients: bool, now: Time, t: State)
    requires Inv(s) && Next(s, Purge(ofClients, now), t)
    ensures Inv(t)
  {
    hide Inv;
    ShrinkKeepsInv(s, t);
  }

  lemma ForgetKeepsInv(s: State, gone: set<StoredKey>, t: State)
    requires Inv(s) && Next(s, Forget(gone), t)
    ensures Inv(t)
  {
    hide Inv;
    ShrinkKeepsInv(s, t);
  }

  lemma ConsumeKeepsInv(s: State, token: StoredKey, now: Time, t: State)
    requires Inv(s) && Next(s, Consume(token, now), t)
    ensures Inv(t)
  {
    hide Inv;
    ShrinkKeepsInv(s, t);
  }

  lemma StepKeepsInv(s: State, e: Event, t: State)
    requires Inv(s) && Next(s, e, t)
    ensures Inv(t)
  {
    hide Inv, Next;
    match e
    case Register(_, _, _) => RegisterKeepsInv(s, e, t);
    case Issue(_, _, _, _) => IssueKeepsInv(s, e, t);
    case Purge(ofClients, now) => PurgeKeepsInv(s, ofClients, now, t);
    case Forget(gone) => ForgetKeepsInv(s, gone, t);
    case Consume(token, now) => ConsumeKeepsInv(s, token, now, t);
  }

  /** Every reachable state keeps every stored registration's promised life, within the cap. */
  lemma {:induction false} RegistrationsLiveAsPromised(states: seq<State>, events: seq<Event>, i: nat)
    requires Run(states, events) && i < |states|
    ensures Inv(states[i])
  {
    if i > 0 {
      hide Inv, Next;
      RegistrationsLiveAsPromised(states, events, i - 1);
      StepKeepsInv(states[i - 1], events[i - 1], states[i]);
    }
  }

  lemma EvictionOrder(s: State, e: Event, t: State, victim: string, other: string)
    requires Inv(s) && e.Register? && Next(s, e, t)
    requires Plain(victim) in s.clients && Plain(victim) !in t.clients && s.clients[Plain(victim)].expiresAt > e.now
    requires Plain(other) in t.clients && other != e.id
    ensures Plain(other) in s.clients && s.clients[Plain(victim)].expiresAt <= s.clients[Plain(other)].expiresAt
    ensures forall id :: id in s.registered ==> s.registered[id] <= e.now
  {
    var row := Row(e.client, e.now + UNUSED_CLIENT_TTL);
    var purged := Purged(s.clients, e.now);
    var part :| RoomMade(purged, Plain(e.id), MAX_CLIENTS, part) && t.clients == part[Plain(e.id) := row];
    assert Plain(victim) in purged && Plain(victim) !in part && Plain(other) in part && Plain(other) != Plain(e.id);
  }

  /** The registration that event i evicts to make room, with over an hour left to it. */
  predicate Displaced(states: seq<State>, events: seq<Event>, i: nat, victim: string)
    requires i < |events| && |states| == |events| + 1 && events[i].Register?
  {
    && Plain(victim) in states[i].clients && Plain(victim) !in states[i + 1].clients
    && states[i].clients[Plain(victim)].expiresAt > events[i].now + UNUSED_CLIENT_TTL
  }

  /**
   * A registration that displaces a used one with over an hour left leaves no unused one behind
   * but itself: an eviction reaches every unused registration first.
   */
  lemma UsedEvictedLast(states: seq<State>, events: seq<Event>, i: nat, victim: string, other: string)
    requires Run(states, events) && i < |events| && events[i].Register?
    ensures Displaced(states, events, i, victim) && Plain(other) in states[i + 1].clients && other != events[i].id ==>
              victim in states[i].used && other in states[i].used
  {
    hide Next;
    RegistrationsLiveAsPromised(states, events, i);
    if Displaced(states, events, i, victim) && Plain(other) in states[i + 1].clients && other != events[i].id {
      EvictionOrder(states[i], events[i], states[i + 1], victim, other);
      assert LivesAsPromised(states[i], victim) && LivesAsPromised(states[i], other);
    }
  }
}
