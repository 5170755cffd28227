/** What one request at the token endpoint promises, and that it is a run of the rotation protocol. */
module TokenEndpointProofs {
  import opened Prelude
  import opened OauthState
  import opened Runs
  import opened TokenEndpoint
  import R = Rotation
  import SignIn

  predicate InOrder(at: Readings) {
    at.grant <= at.client <= at.consume <= at.issue
  }

  /** A wrong secret burns nothing: every unexpired token and code is still there, the one presented among them. */
  lemma WrongSecretKeepsTheGrant(s: Stores, allowed: set<string>, presented: string, redirectUri: string, id: string,
                                 secret: string, verifier: string, token: string, family: nat, at: Readings)
    requires IdentityKept(s.tokens)
    ensures var (after, answer) := AfterRotation(s, allowed, presented, id, secret, token, at);
            answer == InvalidClient ==>
              after.tokens == Purged(s.tokens, at.grant) && after.codes == s.codes && Digest(presented) in after.tokens
    ensures var (after, answer) := AfterRedemption(s, allowed, presented, redirectUri, id, secret, verifier, token,
                                                   family, at);
            answer == InvalidClient ==>
              after.codes == Purged(s.codes, at.grant) && after.tokens == s.tokens && Digest(presented) in after.codes
  {
    hide StoreOrRefuse, WithoutFamily, Extended;
  }

  /** An exchange refused at capacity leaves every unexpired token exactly as it was. */
  lemma CapacityLeavesTokens(s: Stores, allowed: set<string>, presented: string, id: string, secret: string,
                             token: string, at: Readings)
    requires IdentityKept(s.tokens)
    requires AfterRotation(s, allowed, presented, id, secret, token, at).1 == AtCapacity
    ensures AfterRotation(s, allowed, presented, id, secret, token, at).0.tokens == Purged(s.tokens, at.grant)
    ensures R.Unconsumed(Purged(s.tokens, at.grant), Digest(presented))
    ensures AfterRotation(s, allowed, presented, id, secret, token, at).0.codes == s.codes
  {
    hide WithoutFamily, Others;
  }

  /** What a rotation that succeeded leaves: the presented token consumed, and one like it in its place. */
  lemma RotationReplaces(s: Stores, allowed: set<string>, presented: string, id: string, secret: string, token: string,
                         at: Readings)
    requires IdentityKept(s.tokens) && InOrder(at) && Digest(token) !in s.tokens
    requires AfterRotation(s, allowed, presented, id, secret, token, at).1 == Issued(token)
    ensures var after := AfterRotation(s, allowed, presented, id, secret, token, at).0;
            && Digest(presented) in s.tokens && Digest(token) in after.tokens
            && after.tokens[Digest(token)] == s.tokens[Digest(presented)]
            && (Digest(presented) in after.tokens ==>
                  after.tokens[Digest(presented)] == MarkedConsumed(s.tokens[Digest(presented)], at.consume))
            && (s.tokens[Digest(presented)].expiresAt > at.issue ==> Digest(presented) in after.tokens)
            && id == s.tokens[Digest(presented)].values.client
  {
    hide WithoutFamily, Others, Extended, Authenticates;
  }

  /**
   * Presenting a token that a rotation already replaced, while both are unexpired, revokes every
   * token of its family, the replacement included.
   */
  lemma ReplayRevokesTheReplacement(s: Stores, allowed: set<string>, presented: string, id: string, secret: string,
                                    token: string, at: Readings, other: string, secret': string, at': Readings,
                                    allowed': set<string>)
    requires IdentityKept(s.tokens) && InOrder(at) && InOrder(at') && at.issue <= at'.grant
             && Digest(token) !in s.tokens
    requires AfterRotation(s, allowed, presented, id, secret, token, at).1 == Issued(token)
    requires s.tokens[Digest(presented)].expiresAt > at'.grant
    requires var s' := AfterRotation(s, allowed, presented, id, secret, token, at).0;
             IdentityKept(s'.tokens) && Authenticates(Purged(s'.clients, at'.client), id, secret')
    ensures var s' := AfterRotation(s, allowed, presented, id, secret, token, at).0;
            var family := s.tokens[Digest(presented)].values.family;
            var (after, answer) := AfterRotation(s', allowed', presented, id, secret', other, at');
            && answer == Reused
            && forall k :: k in after.tokens ==> after.tokens[k].values.family != family
  {
    RotationReplaces(s, allowed, presented, id, secret, token, at);
    hide StoreOrRefuse, Authenticates, Extended;
    var s' := AfterRotation(s, allowed, presented, id, secret, token, at).0;
    var row := s'.tokens[Digest(presented)];
    assert row == MarkedConsumed(s.tokens[Digest(presented)], at.consume);
    assert presented != "" && id != "";
  }

  /** A code is redeemed at most once: any exchange that got as far as popping it leaves nothing to redeem. */
  lemma CodeIsSingleUse(s: Stores, allowed: set<string>, presented: string, redirectUri: string, id: string,
                        secret: string, verifier: string, token: string, family: nat, at: Readings)
    requires var answer := AfterRedemption(s, allowed, presented, redirectUri, id, secret, verifier, token, family,
                                           at).1;
             answer.Issued? || answer == NotAllowed || answer == AtCapacity
    ensures Digest(presented) !in AfterRedemption(s, allowed, presented, redirectUri, id, secret, verifier, token,
                                                  family, at).0.codes
    ensures Digest(presented) in s.codes
    ensures var r := s.codes[Digest(presented)].values.request;
            && redirectUri == r.redirectUri && id == r.client
            && (r.challengeMethod == "S256" ==> verifier != "" && SignIn.S256(verifier) == r.challenge)
  {
    hide StoreOrRefuse, Authenticates, Extended, WithoutFamily;
  }

  // --- One request alone is a run of the protocol ---------------------------------

  function AsAnswer(answer: Answer): R.Answer {
    match answer
    case Issued(token) => R.Replaced(Digest(token))
    case InvalidGrant => R.InvalidGrant
    case InvalidClient => R.InvalidClient
    case Reused => R.Reused
    case NotAllowed => R.NotAllowed
    case AtCapacity => R.AtCapacity
  }

  ghost predicate NoOtherHolds(m: R.State, p: nat) {
    forall q :: q in m.exchanges && q != p ==> !m.exchanges[q].Holding?
  }

  /** The state in which a lone request finds the protocol: no transaction open, its own token fresh. */
  ghost predicate Alone(m: R.State, p: nat, s: Stores, allowed: set<string>, token: string, at: Readings) {
    && m.tokens == s.tokens && m.allowed == allowed && m.clock <= at.grant && p !in m.exchanges
    && NoOtherHolds(m, p) && Digest(token) !in m.issued
  }

  /** What a run from there must end in: the same rows, the same answer, the clock read last, and little else new. */
  ghost predicate EndsAs(m: R.State, t: R.State, p: nat, presented: string, token: string, at: Readings,
                         result: (Stores, Answer))
  {
    && t.tokens == result.0.tokens && t.clock == at.issue && t.allowed == m.allowed && t.families == m.families
    && t.exchanges == m.exchanges[p := R.Answered(Digest(presented), AsAnswer(result.1))]
    && t.issued <= m.issued + {Digest(token)}
  }

  lemma TickIsNext(m: R.State, until: Time)
    requires m.clock <= until
    ensures R.Next(m, R.Tick(until - m.clock), m.(clock := until))
  {}

  /** The steps a request takes until its grant is read. */
  lemma ReachesPeek(m: R.State, p: nat, presented: string, id: string, at: Readings)
    returns (states: seq<R.State>, steps: seq<R.Step>)
    requires m.clock <= at.grant && p !in m.exchanges && NoOtherHolds(m, p)
    ensures R.Run(states, steps) && states[0] == m
    ensures var key, live := Digest(presented), Purged(m.tokens, at.grant);
            states[|states| - 1] == m.(
              tokens := live, clock := at.grant,
              exchanges := m.exchanges[p := if key in live && id != "" && live[key].values.client == id
                                            then R.Peeked(key, live[key].values.family)
                                                else R.Answered(key, R.InvalidGrant)])
  {
    var key := Digest(presented);
    var waited := m.(clock := at.grant);
    TickIsNext(m, at.grant);
    var started := R.At(waited, p, R.Started(key, id));
    hide R.Next;
    states, steps := OneMore(R.Next, [m], [], R.Tick(at.grant - m.clock), waited);
    states, steps := OneMore(R.Next, states, steps, R.Start(p, key, id), started);
    states, steps := OneMore(R.Next, states, steps, R.Peek(p), R.AfterPeek(started, p, key, id));
  }

  /** What the consume comes to. */
  function Took(m: R.State, key: StoredKey, family: nat): R.Exchange {
    match Consumed(Purged(m.tokens, m.clock), key, m.clock).1
    case None => R.Lost(key, family, m.clock)
    case Some(row) => R.Holding(key, row, m.clock)
  }

  lemma ConsumeIsNext(m: R.State, p: nat, key: StoredKey, family: nat)
    requires p in m.exchanges && m.exchanges[p] == R.Peeked(key, family) && NoOtherHolds(m, p)
    ensures R.Next(m, R.Consume(p), m.(exchanges := m.exchanges[p := Took(m, key, family)]))
  {
    hide R.AfterBegin, R.AfterPeek, R.AfterRevoke, R.AfterFinish, Purged, Consumed;
  }

  /** What finishing does, rows and answer. */
  lemma FinishResult(m: R.State, p: nat, key: StoredKey, row: Row<Refresh>, at: Time, replacement: StoredKey)
    requires row.values.subject.Some? && row.values.email.Some?
    ensures var v, view := row.values, Purged(m.tokens, at)[key := MarkedConsumed(row, at)];
            var stored := StoreOrRefuse(view, replacement,
              Row(Refresh(v.subject, v.email, v.client, v.scope, v.family, None), row.expiresAt), MAX_TOKENS, m.clock);
            var t := R.AfterFinish(m, p, key, row, at, replacement);
            && t.clock == m.clock && t.allowed == m.allowed && t.families == m.families
            && t.issued <= m.issued + {replacement}
            && if v.email.value !in m.allowed
               then && t.tokens == WithoutFamily(view, v.family)
                    && t.exchanges == m.exchanges[p := R.Answered(key, R.NotAllowed)]
               else if stored.None?
               then t.tokens == m.tokens && t.exchanges == m.exchanges[p := R.Answered(key, R.AtCapacity)]
               else && t.tokens == stored.value
                    && t.exchanges == m.exchanges[p := R.Answered(key, R.Replaced(replacement))]
  {
    hide StoreOrRefuse, WithoutFamily, MarkedConsumed, Purged;
  }

  lemma FinishMatchesIssue(m: R.State, p: nat, checked: Stores, key: StoredKey, row: Row<Refresh>, token: string,
                           at: Readings)
    requires row.values.subject.Some? && row.values.email.Some? && m.tokens == checked.tokens && m.clock == at.issue
    ensures var v := row.values;
            var view := Purged(checked.tokens, at.consume)[key := MarkedConsumed(row, at.consume)];
            var result := AfterIssue(checked.(tokens := view), checked,
              Grant(v.subject.value, v.email.value, v.client, v.scope, v.family, row.expiresAt),
              m.allowed, token, at.issue);
            var t := R.AfterFinish(m, p, key, row, at.consume, Digest(token));
            && t.tokens == result.0.tokens && t.exchanges == m.exchanges[p := R.Answered(key, AsAnswer(result.1))]
            && t.clock == at.issue && t.allowed == m.allowed && t.families == m.families
            && t.issued <= m.issued + {Digest(token)}
  {
    FinishResult(m, p, key, row, at.consume, Digest(token));
    hide R.AfterFinish, StoreOrRefuse, WithoutFamily, Extended, MarkedConsumed, Purged;
  }

  /** From the consume on, when another exchange took the token first. */
  lemma FinishesLost(states: seq<R.State>, steps: seq<R.Step>, p: nat, key: StoredKey, family: nat, at: Readings)
    returns (states': seq<R.State>, steps': seq<R.Step>)
    requires R.Run(states, steps) && at.consume <= at.issue
    requires var m := states[|states| - 1];
             m.clock == at.consume && NoOtherHolds(m, p) && p in m.exchanges
                 && m.exchanges[p] == R.Lost(key, family, at.consume)
    ensures R.Run(states', steps') && states'[0] == states[0]
    ensures var m := states[|states| - 1];
            states'[|states'| - 1] == m.(
              tokens := WithoutFamily(Purged(m.tokens, at.consume), family), dead := m.dead + {family},
              clock := at.issue,
              exchanges := m.exchanges[p := R.Answered(key, R.Reused)])
  {
    var m := states[|states| - 1];
    var t := m.(tokens := WithoutFamily(Purged(m.tokens, at.consume), family), dead := m.dead + {family},
                exchanges := m.exchanges[p := R.Answered(key, R.Reused)]);
    TickIsNext(t, at.issue);
    hide R.Next, Purged, WithoutFamily;
    states', steps' := OneMore(R.Next, states, steps, R.Revoke(p), t);
    states', steps' := OneMore(R.Next, states', steps', R.Tick(at.issue - at.consume), t.(clock := at.issue));
  }

  /** From the consume on, when the exchange holds its row. */
  lemma FinishesHeld(states: seq<R.State>, steps: seq<R.Step>, p: nat, checked: Stores, key: StoredKey,
                     row: Row<Refresh>, token: string, at: Readings)
    returns (states': seq<R.State>, steps': seq<R.Step>)
    requires R.Run(states, steps) && at.consume <= at.issue && row.values.subject.Some? && row.values.email.Some?
    requires var m := states[|states| - 1];
             && m.clock == at.consume && NoOtherHolds(m, p) && p in m.exchanges
             && m.exchanges[p] == R.Holding(key, row, at.consume)
             && m.tokens == checked.tokens && Digest(token) !in m.issued
    ensures R.Run(states', steps') && states'[0] == states[0]
    ensures var m, t, v := states[|states| - 1], states'[|states'| - 1], row.values;
            var view := Purged(checked.tokens, at.consume)[key := MarkedConsumed(row, at.consume)];
            var result := AfterIssue(checked.(tokens := view), checked,
              Grant(v.subject.value, v.email.value, v.client, v.scope, v.family, row.expiresAt),
              m.allowed, token, at.issue);
            && t.tokens == result.0.tokens && t.exchanges == m.exchanges[p := R.Answered(key, AsAnswer(result.1))]
            && t.clock == at.issue && t.allowed == m.allowed && t.families == m.families
            && t.issued <= m.issued + {Digest(token)}
  {
    var m := states[|states| - 1];
    var waited := m.(clock := at.issue);
    TickIsNext(m, at.issue);
    FinishMatchesIssue(waited, p, checked, key, row, token, at);
    hide R.Next, R.AfterFinish, AfterIssue, Purged;
    states', steps' := OneMore(R.Next, states, steps, R.Tick(at.issue - at.consume), waited);
    states', steps' := OneMore(R.Next, states', steps', R.Finish(p, Digest(token)),
                               R.AfterFinish(waited, p, key, row, at.consume, Digest(token)));
  }

  /** From the consume on, whatever it comes to. */
  lemma FinishesFromPeek(states: seq<R.State>, steps: seq<R.Step>, p: nat, checked: Stores, key: StoredKey, family: nat,
                         token: string, at: Readings)
    returns (states': seq<R.State>, steps': seq<R.Step>)
    requires R.Run(states, steps) && at.grant <= at.consume <= at.issue && IdentityKept(checked.tokens)
    requires var m := states[|states| - 1];
             && m.clock == at.grant && NoOtherHolds(m, p) && p in m.exchanges && m.exchanges[p] == R.Peeked(key, family)
             && m.tokens == checked.tokens && Digest(token) !in m.issued
    ensures R.Run(states', steps') && states'[0] == states[0]
    ensures var m, t := states[|states| - 1], states'[|states'| - 1];
            var (tokens, consumed) := Consumed(Purged(checked.tokens, at.consume), key, at.consume);
            && t.clock == at.issue && t.allowed == m.allowed && t.families == m.families
            && t.issued <= m.issued + {Digest(token)}
            && match consumed
               case None => t.tokens == WithoutFamily(tokens, family)
                   && t.exchanges == m.exchanges[p := R.Answered(key, R.Reused)]
               case Some(row) =>
                 var v := row.values;
                 var result := AfterIssue(checked.(tokens := tokens), checked,
                   Grant(v.subject.value, v.email.value, v.client, v.scope, v.family, row.expiresAt),
                   m.allowed, token, at.issue);
                 t.tokens == result.0.tokens && t.exchanges == m.exchanges[p := R.Answered(key, AsAnswer(result.1))]
  {
    var m := states[|states| - 1];
    var waited := m.(clock := at.consume);
    TickIsNext(m, at.consume);
    ConsumeIsNext(waited, p, key, family);
    var t := waited.(exchanges := m.exchanges[p := Took(waited, key, family)]);
    ConsumedKeepsIdentity(checked.tokens, key, at.consume);
    hide R.Next, AfterIssue, WithoutFamily, Purged, IdentityKept;
    states', steps' := OneMore(R.Next, states, steps, R.Tick(at.consume - at.grant), waited);
    states', steps' := OneMore(R.Next, states', steps', R.Consume(p), t);
    match Consumed(Purged(checked.tokens, at.consume), key, at.consume).1 {
      case None => states', steps' := FinishesLost(states', steps', p, key, family, at);
      case Some(row) => states', steps' := FinishesHeld(states', steps', p, checked, key, row, token, at);
    }
  }

  lemma ConsumedKeepsIdentity(tokens: Rows<Refresh>, key: StoredKey, now: Time)
    requires IdentityKept(tokens)
    ensures var (rows, consumed) := Consumed(Purged(tokens, now), key, now);
            && (consumed.Some? ==> consumed.value.values.subject.Some? && consumed.value.values.email.Some?
                                   && rows == Purged(tokens, now)[key := MarkedConsumed(consumed.value, now)])
            && (consumed.None? ==> rows == Purged(tokens, now))
  {}

  /**
   * A request that finds no transaction open is a run of the rotation protocol from wherever the
   * protocol stands: it ends in the same rows with the same answer, and leaves no transaction open
   * for the next.
   */
  lemma RotationIsARun(m: R.State, p: nat, s: Stores, allowed: set<string>, presented: string, id: string,
                       secret: string, token: string, at: Readings)
    returns (states: seq<R.State>, steps: seq<R.Step>)
    requires Alone(m, p, s, allowed, token, at) && InOrder(at) && presented != "" && IdentityKept(s.tokens)
    ensures R.Run(states, steps) && states[0] == m
    ensures EndsAs(m, states[|states| - 1], p, presented, token, at,
                   AfterRotation(s, allowed, presented, id, secret, token, at))
  {
    hide R.Next, IdentityKept, AfterIssue, Authenticates;
    var key, live := Digest(presented), Purged(s.tokens, at.grant);
    var checked := s.(tokens := live, clients := Purged(s.clients, at.client));
    states, steps := ReachesPeek(m, p, presented, id, at);
    RotationCases(s, allowed, presented, id, secret, token, at);
    hide AfterRotation, WithoutFamily, Consumed, Purged;
    if !(key in live && id != "" && live[key].values.client == id) {
      var w := states[|states| - 1];
      TickIsNext(w, at.issue);
      states, steps := OneMore(R.Next, states, steps, R.Tick(at.issue - at.grant), w.(clock := at.issue));
    } else if !Authenticates(checked.clients, id, secret) {
      states, steps := EndsRefused(states, steps, p, key, live[key].values.family, at);
    } else {
      states, steps := FinishesFromPeek(states, steps, p, checked, key, live[key].values.family, token, at);
    }
  }

  /** The ways a refresh can go, by how far it got. */
  lemma RotationCases(s: Stores, allowed: set<string>, presented: string, id: string, secret: string, token: string,
                      at: Readings)
    requires IdentityKept(s.tokens) && presented != ""
    ensures var key, live := Digest(presented), Purged(s.tokens, at.grant);
            var checked := s.(tokens := live, clients := Purged(s.clients, at.client));
            var result := AfterRotation(s, allowed, presented, id, secret, token, at);
            && IdentityKept(live)
            && if !(key in live && id != "" && live[key].values.client == id)
                 then result == (s.(tokens := live), InvalidGrant)
               else if !Authenticates(checked.clients, id, secret) then result == (checked, InvalidClient)
               else
                 var (tokens, consumed) := Consumed(Purged(live, at.consume), key, at.consume);
                 match consumed
                 case None => result == (checked.(tokens := WithoutFamily(tokens, live[key].values.family)), Reused)
                 case Some(row) =>
                   var v := row.values;
                   result == AfterIssue(checked.(tokens := tokens), checked,
                     Grant(v.subject.value, v.email.value, v.client, v.scope, v.family, row.expiresAt),
                     allowed, token, at.issue)
  {
    hide AfterIssue, WithoutFamily, Authenticates;
  }

  lemma EndsRefused(states: seq<R.State>, steps: seq<R.Step>, p: nat, key: StoredKey, family: nat, at: Readings)
    returns (states': seq<R.State>, steps': seq<R.Step>)
    requires R.Run(states, steps)
    requires var m := states[|states| - 1];
             m.clock == at.grant <= at.issue && p in m.exchanges && m.exchanges[p] == R.Peeked(key, family)
    ensures R.Run(states', steps') && states'[0] == states[0]
    ensures var m := states[|states| - 1];
            states'[|states'| - 1] == m.(clock := at.issue,
                                         exchanges := m.exchanges[p := R.Answered(key, R.InvalidClient)])
  {
    var m := states[|states| - 1];
    var t := m.(exchanges := m.exchanges[p := R.Answered(key, R.InvalidClient)]);
    TickIsNext(t, at.issue);
    hide R.Next;
    states', steps' := OneMore(R.Next, states, steps, R.Authenticate(p), t);
    states', steps' := OneMore(R.Next, states', steps', R.Tick(at.issue - at.grant), t.(clock := at.issue));
  }

  // --- The code exchange begins a family ------------------------------------------

  /** What the protocol is left with by a code exchange: one more family if it issued, else only later. */
  ghost predicate Begins(m: R.State, t: R.State, grant: Option<SignIn.Code>, family: nat, token: string, issue: Time,
                         result: (Stores, Answer))
  {
    && t.tokens == result.0.tokens && t.clock == issue && t.allowed == m.allowed && t.exchanges == m.exchanges
    && if result.1.Issued?
       then && grant.Some? && t.issued == m.issued + {Digest(token)}
            && t.families == m.families[family := BegunFamily(grant.value, issue)]
       else t.issued == m.issued && t.families == m.families
  }

  function BegunFamily(code: SignIn.Code, issue: Time): R.Family {
    R.Family(code.subject, code.email, code.request.client, code.request.scope, issue)
  }

  /** The code the exchange popped and verified, if it got that far. */
  function Redeemed(s: Stores, presented: string, redirectUri: string, id: string, secret: string, verifier: string,
                    at: Readings): Option<SignIn.Code> {
    var live := Purged(s.codes, at.grant);
    match Find(live, Digest(presented))
    case None => None
    case Some(found) =>
      if id == "" || id != found.values.request.client then None
      else if !Authenticates(Purged(s.clients, at.client), id, secret) then None
      else match Poppable(Purged(live, at.consume), Digest(presented), at.consume)
        case None => None
        case Some(row) => if SignIn.Verifies(row.values.request, redirectUri, verifier) then Some(row.values) else None
  }

  function FirstGrant(code: SignIn.Code, family: nat, issue: Time): Grant {
    Grant(code.subject, code.email, code.request.client, code.request.scope, family, issue + REFRESH_TTL)
  }

  lemma RedemptionCases(s: Stores, allowed: set<string>, presented: string, redirectUri: string, id: string,
                        secret: string, verifier: string, token: string, family: nat,
                        at: Readings) returns (seen: Stores)
    ensures var result := AfterRedemption(s, allowed, presented, redirectUri, id, secret, verifier, token, family, at);
            var redeemed := Redeemed(s, presented, redirectUri, id, secret, verifier, at);
            && seen.tokens == s.tokens && seen.clients == Purged(s.clients, at.client)
            && if redeemed.None?
               then && result.0.tokens == s.tokens && (result.0.clients == s.clients
                                                       || result.0.clients == seen.clients)
                    && (result.1 == InvalidGrant || result.1 == InvalidClient)
               else && Authenticates(seen.clients, redeemed.value.request.client, secret)
                    && result == AfterIssue(seen, seen, FirstGrant(redeemed.value, family, at.issue), allowed, token,
                                            at.issue)
  {
    hide AfterIssue, Authenticates, SignIn.Verifies;
    var live := Purged(s.codes, at.grant);
    var checked := s.(codes := live, clients := Purged(s.clients, at.client));
    seen := checked.(codes := AfterPop(Purged(live, at.consume), Digest(presented), at.consume));
  }

  /** A code exchange that issues begins the protocol's family, for the account and request of its code. */
  lemma RedemptionBegins(m: R.State, s: Stores, presented: string, redirectUri: string, id: string, secret: string,
                         verifier: string, token: string, family: nat, at: Readings)
    returns (states: seq<R.State>, steps: seq<R.Step>)
    requires R.Inv(m) && m.tokens == s.tokens && m.clock <= at.issue && family !in m.families
             && Digest(token) !in m.issued
    requires forall q :: q in m.exchanges ==> !m.exchanges[q].Holding?
    ensures R.Run(states, steps) && states[0] == m
    ensures var result := AfterRedemption(s, m.allowed, presented, redirectUri, id, secret, verifier, token, family,
                                          at);
            var redeemed := Redeemed(s, presented, redirectUri, id, secret, verifier, at);
            Begins(m, states[|states| - 1], redeemed, family, token, at.issue, result)
  {
    hide R.Inv, AfterRedemption, Redeemed, R.Next, AfterIssue, R.AfterBegin, WithoutFamily, Begins;
    var result := AfterRedemption(s, m.allowed, presented, redirectUri, id, secret, verifier, token, family, at);
    var redeemed := Redeemed(s, presented, redirectUri, id, secret, verifier, at);
    var seen := RedemptionCases(s, m.allowed, presented, redirectUri, id, secret, verifier, token, family, at);
    NoRowsOfNewFamily(m, family);
    TickIsNext(m, at.issue);
    var waited := m.(clock := at.issue);
    states, steps := OneMore(R.Next, [m], [], R.Tick(at.issue - m.clock), waited);
    if redeemed.Some? {
      BeginMatchesIssue(waited, seen, redeemed.value, token, family);
    }
    if result.1.Issued? {
      var begun := BegunFamily(redeemed.value, at.issue);
      var t := R.AfterBegin(waited, family, begun, Digest(token));
      IssuedBegins(m, waited, t, redeemed, family, token, at.issue, result);
      states, steps := OneMore(R.Next, states, steps, R.Begin(family, begun, Digest(token)), t);
    } else {
      OnlyLater(m, redeemed, family, token, at.issue, result);
    }
  }

  lemma IssuedBegins(m: R.State, waited: R.State, t: R.State, grant: Option<SignIn.Code>, family: nat, token: string,
                     issue: Time, result: (Stores, Answer))
    requires result.1.Issued? && grant.Some? && waited == m.(clock := issue)
    requires t.tokens == result.0.tokens && t.clock == waited.clock && t.allowed == waited.allowed
             && t.exchanges == waited.exchanges
    requires t.issued == waited.issued + {Digest(token)}
             && t.families == waited.families[family := BegunFamily(grant.value, issue)]
    ensures Begins(m, t, grant, family, token, issue, result)
  {}

  lemma OnlyLater(m: R.State, grant: Option<SignIn.Code>, family: nat, token: string, issue: Time,
                  result: (Stores, Answer))
    requires !result.1.Issued? && result.0.tokens == m.tokens
    ensures Begins(m, m.(clock := issue), grant, family, token, issue, result)
  {}

  lemma NoRowsOfNewFamily(m: R.State, family: nat)
    requires R.Inv(m) && family !in m.families
    ensures WithoutFamily(m.tokens, family) == m.tokens
  {
    hide R.OneLivePerFamily, R.RotatedOnce, R.MintsHonest, R.LocksHeld, R.HeldInTime, R.ReadersKnown, R.FamiliesKnown,
        R.RowOfFamily;
  }

  lemma BeginMatchesIssue(m: R.State, seen: Stores, code: SignIn.Code, token: string, family: nat)
    requires m.tokens == seen.tokens && family !in m.families && Digest(token) !in m.issued
    requires WithoutFamily(m.tokens, family) == m.tokens
    requires forall q :: q in m.exchanges ==> !m.exchanges[q].Holding?
    ensures var result := AfterIssue(seen, seen, FirstGrant(code, family, m.clock), m.allowed, token, m.clock);
            var begun := BegunFamily(code, m.clock);
            var t := R.AfterBegin(m, family, begun, Digest(token));
            && (!result.1.Issued? ==> result.0.tokens == m.tokens)
            && (result.1.Issued? ==>
                  && R.Next(m, R.Begin(family, begun, Digest(token)), t)
                  && t.tokens == result.0.tokens && t.clock == m.clock && t.allowed == m.allowed
                  && t.exchanges == m.exchanges
                  && t.issued == m.issued + {Digest(token)} && t.families == m.families[family := begun])
  {
    hide StoreOrRefuse, Extended, R.AfterPeek, R.AfterConsume, R.AfterRevoke, R.AfterFinish, WithoutFamily;
  }
}
