/**
 * Ending a web session (backend/auth.py): logout puts the token's `jti` in a store that refuses
 * rather than evicts, until the token's own `exp`; every later request decodes the token and then
 * looks its `jti` up.
 */
module Logout {
  import opened Prelude
  import opened OauthState

  const MAX_ENTRIES: nat := 10_000

  /** A token this server signed, as its claims. Decoding accepts it until `exp`. */
  datatype Claims = Claims(jti: string, subject: string, email: string, exp: Time)

  /** What the session cookie holds. */
  datatype Cookie = NoCookie | Unverifiable | Signed(claims: Claims)

  datatype Refusal = NotConfigured | Expired | Invalid | NotAllowed | Revoked

  datatype Session = Anonymous | Refused(reason: Refusal) | Admitted(claims: Claims)

  datatype LogoutStatus = NoContent | AtCapacity

  /** One request that touches the list: its decode reads the clock, then its store access does. */
  datatype Access =
    | Ends(claims: Claims, decodedAt: Time, storedAt: Time)
    | Reads(claims: Claims, decodedAt: Time, storedAt: Time)

  predicate Decodes(claims: Claims, now: Time) {
    now < claims.exp
  }

  /** The list after a logout reaches the store: refused at the cap, and then unchanged. */
  function Listed(rows: Rows<()>, claims: Claims, now: Time): (Rows<()>, bool) {
    match StoreOrRefuse(rows, Plain(claims.jti), Row((), claims.exp), MAX_ENTRIES, now)
    case Some(stored) => (stored, true)
    case None => (rows, false)
  }

  function AfterAccess(rows: Rows<()>, a: Access): Rows<()> {
    if !Decodes(a.claims, a.decodedAt) then rows
    else match a
      case Ends(_, _, _) => Listed(rows, a.claims, a.storedAt).0
      case Reads(_, _, _) => Purged(rows, a.storedAt)
  }

  function AfterAll(rows: Rows<()>, accesses: seq<Access>): Rows<()> {
    if accesses == [] then rows else AfterAccess(AfterAll(rows, accesses[..|accesses| - 1]), accesses[|accesses| - 1])
  }

  predicate IsRevoked(rows: Rows<()>, claims: Claims, now: Time) {
    Plain(claims.jti) in Purged(rows, now)
  }

  function SessionOf(rows: Rows<()>, cookie: Cookie, configured: bool, allowed: set<string>, decodedAt: Time,
                     checkedAt: Time): Session
  {
    match cookie
    case NoCookie => Anonymous
    case Unverifiable => if configured then Refused(Invalid) else Refused(NotConfigured)
    case Signed(claims) =>
      if !configured then Refused(NotConfigured)
      else if !Decodes(claims, decodedAt) then Refused(Expired)
      else if claims.email !in allowed then Refused(NotAllowed)
      else if IsRevoked(rows, claims, checkedAt) then Refused(Revoked)
      else Admitted(claims)
  }

  class RevocationList {
    const store: Store<()>

    constructor ()
      ensures fresh(store) && store.rows == store.committed == map[]
      ensures store.maxEntries == MAX_ENTRIES && !store.evicts && !store.hashesKeys
    {
      store := new Store(MAX_ENTRIES, false, false);
    }

    ghost predicate Configured() {
      store.maxEntries == MAX_ENTRIES && !store.evicts && !store.hashesKeys
    }

    method Revoke(claims: Claims, now: Time) returns (stored: bool)
      requires Configured() && store.rows == store.committed
      modifies store
      ensures store.rows == store.committed
      ensures (store.rows, stored) == Listed(old(store.rows), claims, now)
    {
      stored := store.CleanupAndStore(claims.jti, Row((), claims.exp), now);
    }

    method EndSession(cookie: Cookie, configured: bool, decodedAt: Time, storedAt: Time) returns (status: LogoutStatus)
      requires Configured() && store.rows == store.committed
      modifies store
      ensures store.rows == store.committed
      ensures if cookie.Signed? && configured
              then store.rows == AfterAccess(old(store.rows), Ends(cookie.claims, decodedAt, storedAt))
              else store.rows == old(store.rows)
      ensures status == AtCapacity <==>
                cookie.Signed? && configured && Decodes(cookie.claims, decodedAt)
                    && !Listed(old(store.rows), cookie.claims, storedAt).1
    {
      if cookie.Signed? && configured && Decodes(cookie.claims, decodedAt) {
        var stored := Revoke(cookie.claims, storedAt);
        if !stored {
          return AtCapacity;
        }
      }
      return NoContent;
    }

    method WebSession(cookie: Cookie, configured: bool, allowed: set<string>, decodedAt: Time, checkedAt: Time)
      returns (session: Session)
      requires Configured() && store.rows == store.committed
      modifies store
      ensures store.rows == store.committed
      ensures session == SessionOf(old(store.rows), cookie, configured, allowed, decodedAt, checkedAt)
      ensures if cookie.Signed? && configured && cookie.claims.email in allowed
              then store.rows == AfterAccess(old(store.rows), Reads(cookie.claims, decodedAt, checkedAt))
              else store.rows == old(store.rows)
    {
      if cookie == NoCookie {
        return Anonymous;
      }
      if !configured {
        return Refused(NotConfigured);
      }
      if cookie == Unverifiable {
        return Refused(Invalid);
      }
      var claims := cookie.claims;
      if !Decodes(claims, decodedAt) {
        return Refused(Expired);
      }
      if claims.email !in allowed {
        return Refused(NotAllowed);
      }
      var found := store.CleanupAndGet(claims.jti, checkedAt);
      return if found.Some? then Refused(Revoked) else Admitted(claims);
    }
  }

  /** Requests in the order they were served, none before `start`, the clock never running backwards. */
  predicate Chronological(accesses: seq<Access>, start: Time) {
    accesses == [] ||
    var front, a := accesses[..|accesses| - 1], accesses[|accesses| - 1];
    Chronological(front, start) && End(front, start) <= a.decodedAt <= a.storedAt
  }

  function End(accesses: seq<Access>, start: Time): Time {
    if accesses == [] then start else accesses[|accesses| - 1].storedAt
  }

  /** A `jti` is minted once, so it names one token. */
  predicate NamesOneToken(accesses: seq<Access>, claims: Claims) {
    forall a :: a in accesses && a.claims.jti == claims.jti ==> a.claims == claims
  }

  lemma {:induction false} ListedUntilExpiry(rows: Rows<()>, claims: Claims, accesses: seq<Access>, start: Time)
    requires Plain(claims.jti) in rows && rows[Plain(claims.jti)].expiresAt == claims.exp
    requires Chronological(accesses, start) && NamesOneToken(accesses, claims)
    ensures start <= End(accesses, start)
    ensures var after := AfterAll(rows, accesses);
            && (Plain(claims.jti) in after ==> after[Plain(claims.jti)].expiresAt == claims.exp)
            && (End(accesses, start) < claims.exp ==> Plain(claims.jti) in after)
  {
    if accesses != [] {
      var front, a := accesses[..|accesses| - 1], accesses[|accesses| - 1];
      ListedUntilExpiry(rows, claims, front, start);
    }
  }

  /**
   * After a successful logout, however many logouts and checks follow, the token admits a request
   * exactly when it is decoded before its `exp` and looked up at or after it. So a request served
   * by one clock reading never gets in.
   */
  lemma {:induction false} LoggedOutStaysOut(rows: Rows<()>, claims: Claims, endedAt: Time, accesses: seq<Access>,
                                             allowed: set<string>, decodedAt: Time, checkedAt: Time)
    requires Listed(rows, claims, endedAt).1
    requires Chronological(accesses, endedAt) && NamesOneToken(accesses, claims)
    requires End(accesses, endedAt) <= decodedAt <= checkedAt
    ensures var session := SessionOf(AfterAll(Listed(rows, claims, endedAt).0, accesses), Signed(claims), true, allowed,
                                     decodedAt, checkedAt);
            && (session.Admitted? <==> claims.email in allowed && decodedAt < claims.exp <= checkedAt)
            && (decodedAt == checkedAt ==> session.Refused?)
  {
    ListedUntilExpiry(Listed(rows, claims, endedAt).0, claims, accesses, endedAt);
  }

  // --- Who gets in ----------------------------------------------------------------

  /** The token's `jti` is listed, and its row unexpired. */
  predicate Ended(rows: Rows<()>, claims: Claims, now: Time) {
    Plain(claims.jti) in rows && rows[Plain(claims.jti)].expiresAt > now
  }

  /**
   * What a cookie earns: nothing asked of a request without one; then a deploy that is configured,
   * a cookie this server signed, a token decoded before its `exp`, an account that is allowed, and
   * one that was not ended. The first that fails is the refusal.
   */
  lemma SessionAnswers(rows: Rows<()>, cookie: Cookie, configured: bool, allowed: set<string>, decodedAt: Time,
                       checkedAt: Time)
    ensures var session := SessionOf(rows, cookie, configured, allowed, decodedAt, checkedAt);
            && (session == Anonymous <==> cookie == NoCookie)
            && (session == Refused(NotConfigured) <==> cookie != NoCookie && !configured)
            && (session == Refused(Invalid) <==> cookie == Unverifiable && configured)
            && (session == Refused(Expired) <==> cookie.Signed? && configured && cookie.claims.exp <= decodedAt)
            && (session == Refused(NotAllowed) <==>
                  cookie.Signed? && configured && decodedAt < cookie.claims.exp && cookie.claims.email !in allowed)
            && (session == Refused(Revoked) <==>
                  && cookie.Signed? && configured && decodedAt < cookie.claims.exp && cookie.claims.email in allowed
                  && Ended(rows, cookie.claims, checkedAt))
            && (forall claims :: session == Admitted(claims) <==>
                                   && cookie == Signed(claims) && configured && decodedAt < claims.exp
                                   && claims.email in allowed && !Ended(rows, claims, checkedAt))
  {}

  /** A logout lists the token until its `exp` if fewer than ten thousand others are listed, or changes nothing. */
  lemma LogoutLists(rows: Rows<()>, claims: Claims, now: Time)
    ensures var (after, stored) := Listed(rows, claims, now);
            && (stored <==> |set k | k in rows && k != Plain(claims.jti) && rows[k].expiresAt > now| < 10_000)
            && (!stored ==> after == rows)
            && (stored ==>
                  && (forall k :: k in after <==> k == Plain(claims.jti) || (k in rows && rows[k].expiresAt > now))
                  && (forall k :: k in after ==>
                        after[k] == if k == Plain(claims.jti) then Row((), claims.exp) else rows[k]))
  {
    assert Purged(rows, now).Keys - {Plain(claims.jti)}
           == set k | k in rows && k != Plain(claims.jti) && rows[k].expiresAt > now;
  }

  /**
   * What a request does to the list: none whose token no longer decodes touches it; a logout lists
   * its token or, without room, changes nothing; and a check deletes what has expired.
   */
  lemma AccessLeaves(rows: Rows<()>, a: Access)
    ensures var after := AfterAccess(rows, a);
            && (a.decodedAt >= a.claims.exp ==> after == rows)
            && (a.decodedAt < a.claims.exp && a.Reads? ==>
                  && (forall k :: k in after <==> k in rows && rows[k].expiresAt > a.storedAt)
                  && (forall k :: k in after ==> after[k] == rows[k]))
            && (a.decodedAt < a.claims.exp && a.Ends? ==> after == Listed(rows, a.claims, a.storedAt).0)
            && (a.decodedAt < a.claims.exp && a.Ends? && Listed(rows, a.claims, a.storedAt).1 ==>
                  forall now :: now < a.claims.exp ==> Ended(after, a.claims, now))
  {
    hide Others;
  }

  lemma {:induction false} OthersList(rows: Rows<()>, claims: Claims, accesses: seq<Access>)
    requires Plain(claims.jti) !in rows && forall a :: a in accesses && a.Ends? ==> a.claims.jti != claims.jti
    ensures Plain(claims.jti) !in AfterAll(rows, accesses)
  {
    if accesses != [] {
      var front, a := accesses[..|accesses| - 1], accesses[|accesses| - 1];
      OthersList(rows, claims, front);
      hide Others;
    }
  }

  /** However many other sessions end, one that never did is admitted while its token decodes. */
  lemma NeverEndedStaysIn(rows: Rows<()>, claims: Claims, accesses: seq<Access>, allowed: set<string>,
                          decodedAt: Time, checkedAt: Time)
    requires Plain(claims.jti) !in rows && forall a :: a in accesses && a.Ends? ==> a.claims.jti != claims.jti
    ensures SessionOf(AfterAll(rows, accesses), Signed(claims), true, allowed, decodedAt, checkedAt) == Admitted(claims)
            <==> decodedAt < claims.exp && claims.email in allowed
  {
    OthersList(rows, claims, accesses);
    SessionAnswers(AfterAll(rows, accesses), Signed(claims), true, allowed, decodedAt, checkedAt);
    hide SessionOf, AfterAll;
  }
}
