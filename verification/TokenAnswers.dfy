/**
 * Exactly when a token request is answered how, and what it leaves (backend/mcp_oauth.py), read off
 * the rows it finds: the client's registration, the grant, and the room for one more token.
 */
module TokenAnswers {
  import opened Prelude
  import opened OauthState
  import opened TokenEndpoint
  import SignIn
  import TP = TokenEndpointProofs

  // --- What rows say ----------------------------------------------------------------

  /** The row is there and unexpired. */
  predicate Live<V>(rows: Rows<V>, key: StoredKey, now: Time) {
    key in rows && rows[key].expiresAt > now
  }

  /** There is room for one more among ten thousand: the unexpired rows under other keys are fewer. */
  ghost predicate Room<V>(rows: Rows<V>, key: StoredKey, now: Time) {
    |set k | k in rows && k != key && rows[k].expiresAt > now| < 10_000
  }

  /** Expired rows are deleted, and nothing else changes. */
  ghost predicate OnlyExpiredGone<V(!new)>(before: Rows<V>, after: Rows<V>, now: Time) {
    && (forall k :: k in after <==> Live(before, k, now))
    && (forall k :: k in after ==> k in before && after[k] == before[k])
  }

  /** The client is live and, unless public, presents the secret it was given. */
  predicate KnowsSecret(clients: Rows<Client>, id: string, secret: string, now: Time) {
    && Live(clients, Plain(id), now)
    && var client := clients[Plain(id)].values;
    client.isPublic || (secret != "" && Digest(secret) == client.secret)
  }

  lemma PurgedIsLive<V>(rows: Rows<V>, key: StoredKey, now: Time)
    ensures key in Purged(rows, now) <==> Live(rows, key, now)
    ensures Live(rows, key, now) ==> Purged(rows, now)[key] == rows[key]
  {}

  lemma OnlyExpiredIn<V(!new)>(rows: Rows<V>, now: Time)
    ensures OnlyExpiredGone(rows, Purged(rows, now), now)
  {}

  lemma OthersAreLive<V>(rows: Rows<V>, key: StoredKey, now: Time)
    ensures Others(Purged(rows, now), key) < 10_000 <==> Room(rows, key, now)
  {
    assert Purged(rows, now).Keys - {key} == set k | k in rows && k != key && rows[k].expiresAt > now;
  }

  lemma AuthenticatesIff(clients: Rows<Client>, id: string, secret: string, now: Time)
    ensures Authenticates(Purged(clients, now), id, secret) <==> KnowsSecret(clients, id, secret, now)
  {}

  // --- Issuing ------------------------------------------------------------------------

  /** A registration's expiry is moved to the deadline if that is later; expired ones are deleted. */
  ghost predicate MovedTo(before: Rows<Client>, after: Rows<Client>, id: string, deadline: Time, now: Time) {
    && (forall k :: k in after <==> Live(before, k, now))
    && (forall k :: k in after ==>
          && k in before && after[k].values == before[k].values
          && after[k].expiresAt == if k == Plain(id) && before[k].expiresAt < deadline then deadline
                                   else before[k].expiresAt)
  }

  lemma ExtendedIsMoved(clients: Rows<Client>, id: string, deadline: Time, now: Time)
    ensures MovedTo(clients, Extended(Purged(clients, now), Plain(id), deadline), id, deadline, now)
  {}

  /** Issuing comes to a token if the account is still allowed and there is room for it. */
  lemma IssueIff(seen: Stores, committed: Stores, grant: Grant, allowed: set<string>, token: string, now: Time)
    ensures var answer := AfterIssue(seen, committed, grant, allowed, token, now).1;
            && (answer == NotAllowed <==> grant.email !in allowed)
            && (answer == AtCapacity <==> grant.email in allowed && !Room(seen.tokens, Digest(token), now))
            && (answer == Issued(token) <==> grant.email in allowed && Room(seen.tokens, Digest(token), now))
  {
    OthersAreLive(seen.tokens, Digest(token), now);
    hide Room, Purged, Others;
  }

  lemma IssueLeaves(seen: Stores, committed: Stores, grant: Grant, allowed: set<string>, token: string, now: Time)
    ensures var (after, answer) := AfterIssue(seen, committed, grant, allowed, token, now);
            && (answer == AtCapacity || answer == NotAllowed || answer == Issued(token))
            && (answer == AtCapacity ==> after == committed)
            && (answer != AtCapacity ==> after.codes == seen.codes)
            && (answer == NotAllowed ==>
                  && after.clients == seen.clients
                  && (forall k :: k in after.tokens <==>
                            k in seen.tokens && seen.tokens[k].values.family != grant.family)
                  && (forall k :: k in after.tokens ==> after.tokens[k] == seen.tokens[k]))
            && (answer.Issued? ==>
                  && (forall k :: k in after.tokens <==> k == Digest(token) || Live(seen.tokens, k, now))
                  && (forall k :: k in after.tokens ==>
                        after.tokens[k] == if k == Digest(token) then grant.Token() else seen.tokens[k])
                  && after.clients == Extended(seen.clients, Plain(grant.client), grant.deadline))
  {
    hide Others, Extended;
  }

  // --- The refresh exchange ---------------------------------------------------------

  /** A refresh token of the presenting client, unexpired when read. */
  predicate HasToken(s: Stores, presented: string, id: string, at: Readings) {
    && presented != "" && id != "" && Live(s.tokens, Digest(presented), at.grant)
    && s.tokens[Digest(presented)].values.client == id
  }

  /**
   * Whose refresh token is refused: one that is unknown or another client's, whatever the secret;
   * and then, whatever the token's state, a client that is not live, or that has a secret and
   * presents none or another.
   */
  lemma RefreshRefusals(s: Stores, allowed: set<string>, presented: string, id: string, secret: string, token: string,
                        at: Readings)
    requires IdentityKept(s.tokens)
    ensures var answer := AfterRotation(s, allowed, presented, id, secret, token, at).1;
            && (answer == InvalidGrant <==> !HasToken(s, presented, id, at))
            && (answer == InvalidClient <==>
                  && HasToken(s, presented, id, at)
                  && (|| !Live(s.clients, Plain(id), at.client)
                      || (&& !s.clients[Plain(id)].values.isPublic
                          && (secret == "" || Digest(secret) != s.clients[Plain(id)].values.secret))))
  {
    hide Purged, WithoutFamily, Extended, StoreOrRefuse, Consumed;
    PurgedIsLive(s.tokens, Digest(presented), at.grant);
    AuthenticatesIff(s.clients, id, secret, at.client);
    hide Authenticates;
  }

  /** The presented token is consumed at the instant, and of the others only expired ones are gone. */
  ghost predicate TookOne(before: Rows<Refresh>, after: Rows<Refresh>, key: StoredKey, now: Time) {
    && (forall k :: k in after <==> Live(before, k, now))
    && (forall k :: k in after ==>
          && k in before
          && after[k] == if k != key then before[k]
             else Row(before[k].values.(consumedAt := Some(now), subject := None, email := None), before[k].expiresAt))
  }

  lemma ConsumeTakesOne(before: Rows<Refresh>, read: Time, key: StoredKey, now: Time)
    requires read <= now
    ensures OnlyExpiredGone(before, Purged(before, read), read)
    ensures var (after, consumed) := Consumed(Purged(Purged(before, read), now), key, now);
            && (consumed.Some? <==> Live(before, key, now) && before[key].values.consumedAt.None?)
            && (consumed.Some? ==> consumed.value == before[key] && TookOne(before, after, key, now))
            && (consumed.None? ==> OnlyExpiredGone(before, after, now))
  {}

  function GrantOf(row: Row<Refresh>): Grant
    requires row.values.subject.Some? && row.values.email.Some?
  {
    var v := row.values;
    Grant(v.subject.value, v.email.value, v.client, v.scope, v.family, row.expiresAt)
  }

  /** Room is counted in unexpired rows: consuming one, or deleting expired ones, makes none. */
  lemma SameRoom(before: Rows<Refresh>, after: Rows<Refresh>, key: StoredKey, consumedAt: Time, issued: StoredKey,
                 now: Time)
    requires consumedAt <= now && TookOne(before, after, key, consumedAt)
    ensures Room(after, issued, now) <==> Room(before, issued, now)
  {
    assert (set k | k in after && k != issued && after[k].expiresAt > now)
           == set k | k in before && k != issued && before[k].expiresAt > now;
  }

  /**
   * What becomes of a refresh token its client presents: reuse exactly if it was consumed before, or
   * runs out on the way; else refused for an account no longer allowed, else for want of room, and
   * otherwise replaced by the token generated for it.
   */
  lemma RefreshOutcomes(s: Stores, allowed: set<string>, presented: string, id: string, secret: string, token: string,
                        at: Readings)
    requires IdentityKept(s.tokens) && TP.InOrder(at)
    requires HasToken(s, presented, id, at) && KnowsSecret(s.clients, id, secret, at.client)
    ensures var answer, row := AfterRotation(s, allowed, presented, id, secret, token, at).1,
            s.tokens[Digest(presented)];
            && (answer == Reused <==> row.values.consumedAt.Some? || row.expiresAt <= at.consume)
            && (answer != Reused ==>
                  && row.values.email.Some?
                  && (answer == NotAllowed <==> row.values.email.value !in allowed)
                  && (answer == AtCapacity <==>
                        row.values.email.value in allowed && !Room(s.tokens, Digest(token), at.issue))
                  && (answer == Issued(token) <==>
                        row.values.email.value in allowed && Room(s.tokens, Digest(token), at.issue)))
  {
    var key, live := Digest(presented), Purged(s.tokens, at.grant);
    var checked := s.(tokens := live, clients := Purged(s.clients, at.client));
    PurgedIsLive(s.tokens, key, at.grant);
    AuthenticatesIff(s.clients, id, secret, at.client);
    TP.RotationCases(s, allowed, presented, id, secret, token, at);
    ConsumeTakesOne(s.tokens, at.grant, key, at.consume);
    hide Consumed, Purged, Room, AfterRotation, AfterIssue, Authenticates, WithoutFamily, TookOne, OnlyExpiredGone;
    var (tokens, consumed) := Consumed(Purged(live, at.consume), key, at.consume);
    if consumed.Some? {
      SameRoom(s.tokens, tokens, key, at.consume, Digest(token), at.issue);
      IssueIff(checked.(tokens := tokens), checked, GrantOf(s.tokens[key]), allowed, token, at.issue);
    }
  }

  /** Expired rows and the rows of the family are deleted, and nothing else changes. */
  ghost predicate FamilyGone(before: Rows<Refresh>, after: Rows<Refresh>, family: nat, now: Time) {
    && (forall k :: k in after <==> Live(before, k, now) && before[k].values.family != family)
    && (forall k :: k in after ==> k in before && after[k] == before[k])
  }

  lemma FamilyLeft(before: Rows<Refresh>, after: Rows<Refresh>, family: nat, now: Time)
    ensures OnlyExpiredGone(before, after, now) ==> FamilyGone(before, WithoutFamily(after, family), family, now)
  {}

  /** The token replaced is consumed without its identity; its replacement has its account, family and deadline. */
  ghost predicate Replaced(before: Rows<Refresh>, after: Rows<Refresh>, presented: StoredKey, issued: StoredKey,
                           consumedAt: Time, now: Time)
    requires presented in before
  {
    && (forall k :: k in after <==> k == issued || Live(before, k, now))
    && (forall k :: k in after ==>
          if k == issued then after[k] == before[presented]
          else && k in before
               && after[k] == if k != presented then before[k]
                  else Row(before[k].values.(consumedAt := Some(consumedAt), subject := None, email := None),
                           before[k].expiresAt))
  }

  lemma TakenLeaves(s: Stores, checked: Stores, tokens: Rows<Refresh>, key: StoredKey, allowed: set<string>,
                    token: string, at: Readings)
    requires at.consume <= at.issue && Live(s.tokens, key, at.consume) && TookOne(s.tokens, tokens, key, at.consume)
    requires s.tokens[key].values.subject.Some? && s.tokens[key].values.email.Some?
             && s.tokens[key].values.consumedAt.None?
    requires checked.clients == Purged(s.clients, at.client)
    ensures var grant := GrantOf(s.tokens[key]);
            var (after, answer) := AfterIssue(checked.(tokens := tokens), checked, grant, allowed, token, at.issue);
            && (answer == AtCapacity ==> after == checked)
            && (answer == NotAllowed ==>
                  && after == checked.(tokens := after.tokens)
                  && FamilyGone(s.tokens, after.tokens, grant.family, at.consume))
            && (answer.Issued? ==>
                  && after.codes == checked.codes
                  && Replaced(s.tokens, after.tokens, key, Digest(token), at.consume, at.issue)
                  && MovedTo(s.clients, after.clients, grant.client, grant.deadline, at.client))
            && (answer == AtCapacity || answer == NotAllowed || answer.Issued?)
  {
    hide Purged, MovedTo, Extended, AfterIssue, Room;
    var grant := GrantOf(s.tokens[key]);
    IssueLeaves(checked.(tokens := tokens), checked, grant, allowed, token, at.issue);
    ExtendedIsMoved(s.clients, grant.client, grant.deadline, at.client);
    var (after, answer) := AfterIssue(checked.(tokens := tokens), checked, grant, allowed, token, at.issue);
    if answer.Issued? {
      ReplacedIsMore(s.tokens, tokens, after.tokens, key, token, at);
    }
  }

  /** Over what the consume left, a store adds the copy. */
  lemma ReplacedIsMore(before: Rows<Refresh>, tokens: Rows<Refresh>, after: Rows<Refresh>, key: StoredKey,
                       token: string, at: Readings)
    requires at.consume <= at.issue && key in before && TookOne(before, tokens, key, at.consume)
    requires forall k :: k in after <==> k == Digest(token) || Live(tokens, k, at.issue)
    requires forall k :: k in after ==>
               if k == Digest(token) then after[k] == before[key] else k in tokens && after[k] == tokens[k]
    ensures Replaced(before, after, key, Digest(token), at.consume, at.issue)
  {
  }

  /**
   * What each answer to a refresh request leaves: a refusal no change but expired rows gone, a reuse
   * or an account no longer allowed none of the family, and a replacement the old token consumed.
   */
  lemma RefreshLeaves(s: Stores, allowed: set<string>, presented: string, id: string, secret: string, token: string,
                      at: Readings)
    requires IdentityKept(s.tokens) && TP.InOrder(at)
    ensures var (after, answer) := AfterRotation(s, allowed, presented, id, secret, token, at);
            && after.codes == s.codes
            && (answer == InvalidGrant ==>
                  && after.clients == s.clients
                  && if presented == "" then after.tokens == s.tokens
                     else OnlyExpiredGone(s.tokens, after.tokens, at.grant))
            && (answer != InvalidGrant && !answer.Issued? ==> OnlyExpiredGone(s.clients, after.clients, at.client))
            && (answer == InvalidClient || answer == AtCapacity ==> OnlyExpiredGone(s.tokens, after.tokens, at.grant))
            && (answer == Reused || answer == NotAllowed ==>
                  && Digest(presented) in s.tokens
                  && FamilyGone(s.tokens, after.tokens, s.tokens[Digest(presented)].values.family, at.consume))
            && (answer.Issued? ==>
                  && Digest(presented) in s.tokens
                  && Replaced(s.tokens, after.tokens, Digest(presented), Digest(token), at.consume, at.issue)
                  && MovedTo(s.clients, after.clients, id, s.tokens[Digest(presented)].expiresAt, at.client))
  {
    hide Authenticates, AfterIssue, Extended, Consumed, TookOne, Replaced, MovedTo, Purged, WithoutFamily, FamilyGone;
    hide OnlyExpiredGone;
    if presented != "" {
      var key, live := Digest(presented), Purged(s.tokens, at.grant);
      var checked := s.(tokens := live, clients := Purged(s.clients, at.client));
      TP.RotationCases(s, allowed, presented, id, secret, token, at);
      PurgedIsLive(s.tokens, key, at.grant);
      ConsumeTakesOne(s.tokens, at.grant, key, at.consume);
      OnlyExpiredIn(s.clients, at.client);
      var (tokens, consumed) := Consumed(Purged(live, at.consume), key, at.consume);
      if key in live {
        FamilyLeft(s.tokens, tokens, live[key].values.family, at.consume);
        if consumed.Some? {
          TakenLeaves(s, checked, tokens, key, allowed, token, at);
        }
      }
    }
  }

  // --- The code exchange --------------------------------------------------------------

  /** A code of the presenting client, unexpired when read. */
  predicate HasCode(s: Stores, presented: string, id: string, at: Readings) {
    && id != "" && Live(s.codes, Digest(presented), at.grant)
    && s.codes[Digest(presented)].values.request.client == id
  }

  /**
   * Whose code is refused: one that is unknown or another client's; then a client that is not live,
   * or has a secret and presents none or another, which leaves the code; and then a code that ran
   * out on the way, a redirect URI other than the code's, or for S256 no verifier or another
   * challenge's.
   */
  lemma CodeRefusals(s: Stores, allowed: set<string>, presented: string, redirectUri: string, id: string,
                     secret: string, verifier: string, token: string, family: nat, at: Readings)
    requires at.grant <= at.consume
    ensures var answer := AfterRedemption(s, allowed, presented, redirectUri, id, secret, verifier, token, family,
                                          at).1;
            && (answer == InvalidClient <==>
                  && HasCode(s, presented, id, at)
                  && (|| !Live(s.clients, Plain(id), at.client)
                      || (&& !s.clients[Plain(id)].values.isPublic
                          && (secret == "" || Digest(secret) != s.clients[Plain(id)].values.secret))))
            && (answer == InvalidGrant <==>
                  || !HasCode(s, presented, id, at)
                  || (&& KnowsSecret(s.clients, id, secret, at.client)
                      && var r := s.codes[Digest(presented)].values.request;
                      || s.codes[Digest(presented)].expiresAt <= at.consume
                      || redirectUri != r.redirectUri
                      || (r.challengeMethod == "S256" && (verifier == "" || SignIn.S256(verifier) != r.challenge))))
            && answer != Reused
  {
    hide Purged, WithoutFamily, Extended, StoreOrRefuse, AfterPop, Poppable;
    PurgedIsLive(s.codes, Digest(presented), at.grant);
    PurgedIsLive(Purged(s.codes, at.grant), Digest(presented), at.consume);
    SignIn.LiveIsPoppable(Purged(s.codes, at.grant), Digest(presented), at.consume);
    AuthenticatesIff(s.clients, id, secret, at.client);
    hide Authenticates;
  }

  /** The exchange popped its client's code, and the redirect URI and verifier are the code's. */
  predicate Redeems(s: Stores, presented: string, redirectUri: string, id: string, secret: string, verifier: string,
                    at: Readings)
  {
    && HasCode(s, presented, id, at) && KnowsSecret(s.clients, id, secret, at.client)
    && s.codes[Digest(presented)].expiresAt > at.consume
    && var r := s.codes[Digest(presented)].values.request;
    && redirectUri == r.redirectUri
    && (r.challengeMethod == "S256" ==> verifier != "" && SignIn.S256(verifier) == r.challenge)
  }

  /** What was popped and verified is the code presented, and the exchange goes on to issue for it. */
  lemma RedeemsIff(s: Stores, allowed: set<string>, presented: string, redirectUri: string, id: string, secret: string,
                   verifier: string, token: string, family: nat, at: Readings)
    requires at.grant <= at.consume
    ensures var redeemed := TP.Redeemed(s, presented, redirectUri, id, secret, verifier, at);
            && (redeemed.Some? <==> Redeems(s, presented, redirectUri, id, secret, verifier, at))
            && (redeemed.Some? ==> redeemed.value == s.codes[Digest(presented)].values)
  {
    PurgedIsLive(s.codes, Digest(presented), at.grant);
    PurgedIsLive(Purged(s.codes, at.grant), Digest(presented), at.consume);
    SignIn.LiveIsPoppable(Purged(s.codes, at.grant), Digest(presented), at.consume);
    AuthenticatesIff(s.clients, id, secret, at.client);
    hide Purged, Poppable, Authenticates;
  }

  /**
   * What becomes of a code redeemed: refused for an account no longer allowed, else for want of
   * room, and otherwise answered with the token generated for it.
   */
  lemma CodeOutcomes(s: Stores, allowed: set<string>, presented: string, redirectUri: string, id: string,
                     secret: string, verifier: string, token: string, family: nat, at: Readings)
    requires at.grant <= at.consume && Redeems(s, presented, redirectUri, id, secret, verifier, at)
    ensures var answer := AfterRedemption(s, allowed, presented, redirectUri, id, secret, verifier, token, family,
                                          at).1;
            var email := s.codes[Digest(presented)].values.email;
            && (answer == NotAllowed <==> email !in allowed)
            && (answer == AtCapacity <==> email in allowed && !Room(s.tokens, Digest(token), at.issue))
            && (answer == Issued(token) <==> email in allowed && Room(s.tokens, Digest(token), at.issue))
  {
    hide AfterRedemption, TP.Redeemed, AfterIssue, Room;
    RedeemsIff(s, allowed, presented, redirectUri, id, secret, verifier, token, family, at);
    var seen := TP.RedemptionCases(s, allowed, presented, redirectUri, id, secret, verifier, token, family, at);
    IssueIff(seen, seen, TP.FirstGrant(s.codes[Digest(presented)].values, family, at.issue), allowed, token, at.issue);
  }

  /** The row under the key and the expired ones are deleted, and nothing else changes. */
  ghost predicate OneTaken<V(!new)>(before: Rows<V>, after: Rows<V>, key: StoredKey, now: Time) {
    && (forall k :: k in after <==> k != key && Live(before, k, now))
    && (forall k :: k in after ==> k in before && after[k] == before[k])
  }

  lemma PoppedIsTaken<V(!new)>(rows: Rows<V>, read: Time, key: StoredKey, now: Time)
    requires read <= now
    ensures OneTaken(rows, AfterPop(Purged(Purged(rows, read), now), key, now), key, now)
  {}

  /**
   * What each answer to a code exchange leaves. The code is spent as soon as its client is
   * authenticated, whatever comes of it; a token issued is the code's account's, for thirty days.
   */
  lemma CodeLeaves(s: Stores, allowed: set<string>, presented: string, redirectUri: string, id: string,
                   secret: string, verifier: string, token: string, family: nat, at: Readings)
    requires TP.InOrder(at)
    ensures var (after, answer) := AfterRedemption(s, allowed, presented, redirectUri, id, secret, verifier, token,
                                                   family, at);
            && (if HasCode(s, presented, id, at) && KnowsSecret(s.clients, id, secret, at.client)
                then OneTaken(s.codes, after.codes, Digest(presented), at.consume)
                else OnlyExpiredGone(s.codes, after.codes, at.grant))
            && (if !HasCode(s, presented, id, at) then after.clients == s.clients
                else if !answer.Issued? then OnlyExpiredGone(s.clients, after.clients, at.client)
                else MovedTo(s.clients, after.clients, id, at.issue + 2_592_000, at.client))
            && (answer != NotAllowed && !answer.Issued? ==> after.tokens == s.tokens)
            && (answer == NotAllowed ==>
                  && (forall k :: k in after.tokens <==> k in s.tokens && s.tokens[k].values.family != family)
                  && (forall k :: k in after.tokens ==> after.tokens[k] == s.tokens[k]))
            && (answer.Issued? ==>
                  && Digest(presented) in s.codes
                  && var code := s.codes[Digest(presented)].values;
                  && (forall k :: k in after.tokens <==> k == Digest(token) || Live(s.tokens, k, at.issue))
                  && (forall k :: k in after.tokens && k != Digest(token) ==> after.tokens[k] == s.tokens[k])
                  && after.tokens[Digest(token)]
                     == Row(Refresh(Some(code.subject), Some(code.email), id, code.request.scope, family, None),
                            at.issue + 2_592_000))
  {
    hide AfterIssue, Room, Purged, AfterPop, Poppable, OneTaken, OnlyExpiredGone, Authenticates, MovedTo, Extended;
    PurgedIsLive(s.codes, Digest(presented), at.grant);
    AuthenticatesIff(s.clients, id, secret, at.client);
    OnlyExpiredIn(s.clients, at.client);
    OnlyExpiredIn(s.codes, at.grant);
    PoppedIsTaken(s.codes, at.grant, Digest(presented), at.consume);
    RedeemsIff(s, allowed, presented, redirectUri, id, secret, verifier, token, family, at);
    if Redeems(s, presented, redirectUri, id, secret, verifier, at) {
      var code := s.codes[Digest(presented)].values;
      var grant := TP.FirstGrant(code, family, at.issue);
      var seen := s.(clients := Purged(s.clients, at.client),
                     codes := AfterPop(Purged(Purged(s.codes, at.grant), at.consume), Digest(presented), at.consume));
      IssueLeaves(seen, seen, grant, allowed, token, at.issue);
      ExtendedIsMoved(s.clients, id, at.issue + 2_592_000, at.client);
    }
  }
}
