/**
 * POST /oauth/token as one request runs it (backend/mcp_oauth.py): the grant is read, its client
 * authenticated, the grant consumed, and the token pair issued, each step through the stores. The
 * clock is read once per store access, in order.
 */
module TokenEndpoint {
  import opened Prelude
  import opened OauthState
  import Registrations
  import Rotation
  import SignIn

  type Client = Registrations.Client

  const MAX_TOKENS := Rotation.MAX_TOKENS
  const REFRESH_TTL := Rotation.REFRESH_TTL

  datatype Answer =
    | Issued(refreshToken: string)
    | InvalidGrant | InvalidClient | Reused | NotAllowed | AtCapacity

  datatype Readings = Readings(grant: Time, client: Time, consume: Time, issue: Time)

  /** Redeemable tokens name an account; consumed ones no longer do. */
  ghost predicate IdentityKept(tokens: Rows<Refresh>) {
    forall k :: k in tokens ==>
      if tokens[k].values.consumedAt.None? then tokens[k].values.subject.Some? && tokens[k].values.email.Some?
      else tokens[k].values.subject.None? && tokens[k].values.email.None?
  }

  predicate Authenticates(clients: Rows<Client>, id: string, secret: string) {
    && Plain(id) in clients
    && var client := clients[Plain(id)].values;
    client.isPublic || (secret != "" && Digest(secret) == client.secret)
  }

  // --- What each part of the request leaves ---------------------------------------

  datatype Stores = Stores(clients: Rows<Client>, codes: Rows<SignIn.Code>, tokens: Rows<Refresh>)

  datatype Grant = Grant(subject: string, email: string, client: string, scope: string, family: nat, deadline: Time) {
    function Token(): Row<Refresh> {
      Row(Refresh(Some(subject), Some(email), client, scope, family, None), deadline)
    }
  }

  /** Issuing from what the session sees; a refusal at the cap returns to what was committed. */
  function AfterIssue(seen: Stores, committed: Stores, grant: Grant, allowed: set<string>, token: string,
                      now: Time): (Stores, Answer)
  {
    if grant.email !in allowed then
      (seen.(tokens := WithoutFamily(seen.tokens, grant.family)), NotAllowed)
    else match StoreOrRefuse(seen.tokens, Digest(token), grant.Token(), MAX_TOKENS, now)
      case None => (committed, AtCapacity)
      case Some(tokens) =>
        (seen.(tokens := tokens, clients := Extended(seen.clients, Plain(grant.client), grant.deadline)), Issued(token))
  }

  function AfterRotation(s: Stores, allowed: set<string>, presented: string, id: string, secret: string, token: string,
                         at: Readings): (Stores, Answer)
    requires IdentityKept(s.tokens)
  {
    if presented == "" then (s, InvalidGrant) else
    var read := s.(tokens := Purged(s.tokens, at.grant));
    match Find(read.tokens, Digest(presented))
    case None => (read, InvalidGrant)
    case Some(found) =>
      if id == "" || id != found.values.client then (read, InvalidGrant) else
      var checked := read.(clients := Purged(read.clients, at.client));
      if !Authenticates(checked.clients, id, secret) then (checked, InvalidClient) else
      var (tokens, consumed) := Consumed(Purged(checked.tokens, at.consume), Digest(presented), at.consume);
      match consumed
      case None => (checked.(tokens := WithoutFamily(tokens, found.values.family)), Reused)
      case Some(row) =>
        var v := row.values;
        AfterIssue(checked.(tokens := tokens), checked,
                   Grant(v.subject.value, v.email.value, v.client, v.scope, v.family, row.expiresAt),
                   allowed, token, at.issue)
  }

  function AfterRedemption(s: Stores, allowed: set<string>, presented: string, redirectUri: string, id: string,
                           secret: string, verifier: string, token: string, family: nat, at: Readings): (Stores, Answer)
  {
    var read := s.(codes := Purged(s.codes, at.grant));
    match Find(read.codes, Digest(presented))
    case None => (read, InvalidGrant)
    case Some(found) =>
      if id == "" || id != found.values.request.client then (read, InvalidGrant) else
      var checked := read.(clients := Purged(read.clients, at.client));
      if !Authenticates(checked.clients, id, secret) then (checked, InvalidClient) else
      var live := Purged(checked.codes, at.consume);
      var popped := checked.(codes := AfterPop(live, Digest(presented), at.consume));
      match Poppable(live, Digest(presented), at.consume)
      case None => (popped, InvalidGrant)
      case Some(row) =>
        var r := row.values.request;
        if !SignIn.Verifies(r, redirectUri, verifier) then (popped, InvalidGrant) else
        AfterIssue(popped, popped,
                   Grant(row.values.subject, row.values.email, r.client, r.scope, family, at.issue + REFRESH_TTL),
                   allowed, token, at.issue)
  }

  class Server {
    const clients: Store<Client>
    const codes: Store<SignIn.Code>
    const tokens: Store<Refresh>
    var allowed: set<string>

    ghost predicate Valid()
      reads this, clients, codes, tokens
    {
      && (clients as object) != codes && (clients as object) != tokens && (codes as object) != tokens
      && (clients as object) != this && (codes as object) != this && (tokens as object) != this
      && !clients.hashesKeys
      && codes.hashesKeys
      && tokens.hashesKeys && !tokens.evicts && tokens.maxEntries == MAX_TOKENS
      && IdentityKept(tokens.rows) && IdentityKept(tokens.committed)
    }

    /** No flushed write is pending: what this session sees is what every session sees. */
    ghost predicate Quiet()
      reads clients, codes, tokens
    {
      clients.rows == clients.committed && codes.rows == codes.committed && tokens.rows == tokens.committed
    }

    ghost function View(): Stores
      reads clients, codes, tokens
    {
      Stores(clients.rows, codes.rows, tokens.rows)
    }

    ghost function Committed(): Stores
      reads clients, codes, tokens
    {
      Stores(clients.committed, codes.committed, tokens.committed)
    }

    constructor (allowed: set<string>)
      ensures Valid() && Quiet() && fresh(clients) && fresh(codes) && fresh(tokens)
      ensures View() == Stores(map[], map[], map[])
    {
      clients := new Store(Registrations.MAX_CLIENTS, true, false);
      codes := new Store(SignIn.MAX_ENTRIES, false, true);
      tokens := new Store(MAX_TOKENS, false, true);
      this.allowed := allowed;
    }

    method ValidateClientSecret(id: string, secret: string, now: Time) returns (valid: bool)
      requires Valid() && Quiet()
      modifies clients
      ensures Valid() && Quiet()
      ensures clients.rows == Purged(old(clients.rows), now)
      ensures valid <==> Authenticates(clients.rows, id, secret)
    {
      var found := clients.CleanupAndGet(id, now);
      if found.None? {
        return false;
      }
      var client := found.value.values;
      if client.isPublic {
        return true;
      }
      return secret != "" && Digest(secret) == client.secret;
    }

    method IssueTokenResponse(grant: Grant, token: string, now: Time) returns (answer: Answer)
      requires Valid() && clients.rows == clients.committed && codes.rows == codes.committed
      modifies clients, tokens
      ensures Valid() && Quiet()
      ensures (View(), answer) == AfterIssue(old(View()), old(Committed()), grant, old(allowed), token, now)
    {
      if grant.email !in allowed {
        var _ := RevokeRefreshTokenFamily(tokens, grant.family);
        return NotAllowed;
      }
      var stored := tokens.CleanupAndStore(token, grant.Token(), now);
      if !stored {
        return AtCapacity;
      }
      clients.ExtendExpiry(grant.client, grant.deadline);
      return Issued(token);
    }

    method ExchangeRefreshToken(presented: string, id: string, secret: string, token: string, at: Readings)
      returns (answer: Answer)
      requires Valid() && Quiet()
      modifies clients, tokens
      ensures Valid() && Quiet()
      ensures (View(), answer) == AfterRotation(old(View()), old(allowed), presented, id, secret, token, at)
    {
      if presented == "" {
        return InvalidGrant;
      }
      var found := tokens.CleanupAndGet(presented, at.grant);
      if found.None? {
        return InvalidGrant;
      }
      if id == "" || id != found.value.values.client {
        return InvalidGrant;
      }
      var valid := ValidateClientSecret(id, secret, at.client);
      if !valid {
        return InvalidClient;
      }
      var consumed := ConsumeRefreshToken(tokens, presented, at.consume, at.consume);
      if consumed.None? {
        var _ := RevokeRefreshTokenFamily(tokens, found.value.values.family);
        return Reused;
      }
      var v := consumed.value.values;
      answer := IssueTokenResponse(
        Grant(v.subject.value, v.email.value, v.client, v.scope, v.family, consumed.value.expiresAt), token, at.issue);
    }

    method ExchangeAuthorizationCode(presented: string, redirectUri: string, id: string, secret: string,
                                     verifier: string, token: string, family: nat,
                                     at: Readings) returns (answer: Answer)
      requires Valid() && Quiet()
      modifies clients, codes, tokens
      ensures Valid() && Quiet()
      ensures (View(), answer)
              == AfterRedemption(old(View()), old(allowed), presented, redirectUri, id, secret, verifier, token, family,
                                 at)
    {
      hide AfterIssue, Poppable, AfterPop, Purged, StoreOrRefuse;
      var found := codes.CleanupAndGet(presented, at.grant);
      if found.None? {
        return InvalidGrant;
      }
      if id == "" || id != found.value.values.request.client {
        return InvalidGrant;
      }
      var valid := ValidateClientSecret(id, secret, at.client);
      if !valid {
        return InvalidClient;
      }
      var consumed := codes.CleanupAndPop(presented, at.consume, at.consume);
      if consumed.None? {
        return InvalidGrant;
      }
      var code := consumed.value.values;
      if redirectUri != code.request.redirectUri {
        return InvalidGrant;
      }
      if code.request.challengeMethod == SignIn.METHOD_S256 {
        if verifier == "" {
          return InvalidGrant;
        }
        if SignIn.S256(verifier) != code.request.challenge {
          return InvalidGrant;
        }
      }
      answer := IssueTokenResponse(
        Grant(code.subject, code.email, code.request.client, code.request.scope, family, at.issue + REFRESH_TTL), token,
            at.issue);
    }
  }
}
