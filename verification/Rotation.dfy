/**
 * Refresh-token rotation under concurrency (backend/mcp_oauth.py, `_exchange_refresh_token`): any
 * number of exchanges interleave, one database statement at a time. The peek commits on its own;
 * the consume is only flushed, holds its row's lock, and commits together with the replacement.
 */
module Rotation {
  import opened Prelude
  import opened OauthState
  import opened Runs

  const MAX_TOKENS: nat := 10_000
  const REFRESH_TTL: Time := 2_592_000

  /** What the code exchange that began a family fixed for all of it. */
  datatype Family = Family(subject: string, email: string, client: string, scope: string, begunAt: Time) {
    const deadline: Time := begunAt + REFRESH_TTL

    function Token(id: nat): Row<Refresh> {
      Row(Refresh(Some(subject), Some(email), client, scope, id, None), deadline)
    }
  }

  /** An access token minted, when, and when the grant behind it was redeemed. */
  datatype Mint = Mint(family: nat, subject: string, email: string, redeemedAt: Time, mintedAt: Time)

  datatype Answer = Replaced(token: StoredKey) | InvalidGrant | InvalidClient | Reused | NotAllowed | AtCapacity | Died

  /** Where one exchange is. */
  datatype Exchange =
    | Started(token: StoredKey, client: string)
    | Peeked(token: StoredKey, family: nat)
    | Holding(token: StoredKey, grant: Row<Refresh>, at: Time)  // consume flushed, row locked
    | Lost(token: StoredKey, family: nat, at: Time)             // the consume found nothing to take
    | Answered(token: StoredKey, answer: Answer)

  /** The committed rows and the exchanges in flight, with the history the claims are about. */
  datatype State = State(
    clock: Time, tokens: Rows<Refresh>, allowed: set<string>, exchanges: map<nat, Exchange>,
    families: map<nat, Family>, dead: set<nat>, issued: set<StoredKey>,
    rotations: seq<(StoredKey, StoredKey)>, minted: seq<Mint>)

  datatype Step =
    | Tick(seconds: nat)
    | SetAllowed(emails: set<string>)
    | Begin(family: nat, begun: Family, token: StoredKey)  // a code exchange
    | Start(p: nat, token: StoredKey, client: string)
    | Peek(p: nat)
    | Authenticate(p: nat)
    | Consume(p: nat)
    | Revoke(p: nat)
    | Finish(p: nat, replacement: StoredKey)
    | Die(p: nat)                                          // crashed, or aborted by the database

  /** No other exchange holds a row that a delete of the expired ones would have to wait for. */
  ghost predicate PurgeUnblocked(s: State, p: nat) {
    forall q :: q in s.exchanges && q != p && s.exchanges[q].Holding? ==> s.exchanges[q].grant.expiresAt > s.clock
  }

  ghost predicate RowUnlocked(s: State, token: StoredKey) {
    forall q :: q in s.exchanges && s.exchanges[q].Holding? ==> s.exchanges[q].token != token
  }

  ghost predicate FamilyUnlocked(s: State, family: nat) {
    forall q :: q in s.exchanges && s.exchanges[q].Holding? ==> s.exchanges[q].grant.values.family != family
  }

  function At(s: State, p: nat, e: Exchange): State {
    s.(exchanges := s.exchanges[p := e])
  }

  function AfterBegin(s: State, id: nat, begun: Family, token: StoredKey): State {
    match StoreOrRefuse(s.tokens, token, begun.Token(id), MAX_TOKENS, s.clock)
    case None => s
    case Some(tokens) =>
      s.(tokens := tokens, families := s.families[id := begun], issued := s.issued + {token},
         minted := s.minted + [Mint(id, begun.subject, begun.email, s.clock, s.clock)])
  }

  function AfterPeek(s: State, p: nat, token: StoredKey, client: string): State {
    var tokens := Purged(s.tokens, s.clock);
    var t := s.(tokens := tokens);
    match Find(tokens, token)
    case None => At(t, p, Answered(token, InvalidGrant))
    case Some(grant) =>
      if client == "" || client != grant.values.client then At(t, p, Answered(token, InvalidGrant))
      else At(t, p, Peeked(token, grant.values.family))
  }

  function AfterConsume(s: State, p: nat, token: StoredKey, family: nat): State {
    match Consumed(Purged(s.tokens, s.clock), token, s.clock).1
    case Some(grant) => At(s, p, Holding(token, grant, s.clock))
    case None => At(s, p, Lost(token, family, s.clock))
  }

  function AfterRevoke(s: State, p: nat, token: StoredKey, family: nat, at: Time): State {
    At(s.(tokens := WithoutFamily(Purged(s.tokens, at), family), dead := s.dead + {family}), p, Answered(token, Reused))
  }

  /** The rows as the holding transaction sees them: everyone's commits and its own flushed consume. */
  function View(s: State, token: StoredKey, grant: Row<Refresh>, at: Time): Rows<Refresh> {
    Purged(s.tokens, at)[token := MarkedConsumed(grant, at)]
  }

  function AfterFinish(s: State, p: nat, token: StoredKey, grant: Row<Refresh>, at: Time, replacement: StoredKey): State
    requires grant.values.subject.Some? && grant.values.email.Some?
  {
    var g, view := grant.values, View(s, token, grant, at);
    if g.email.value !in s.allowed then
      At(s.(tokens := WithoutFamily(view, g.family), dead := s.dead + {g.family}), p, Answered(token, NotAllowed))
    else
      var row := Row(Refresh(g.subject, g.email, g.client, g.scope, g.family, None), grant.expiresAt);
      match StoreOrRefuse(view, replacement, row, MAX_TOKENS, s.clock)
      case None => At(s, p, Answered(token, AtCapacity))
      case Some(tokens) =>
        At(s.(tokens := tokens, issued := s.issued + {replacement},
              rotations := s.rotations + [(token, replacement)],
              minted := s.minted + [Mint(g.family, g.subject.value, g.email.value, at, s.clock)]),
           p, Answered(token, Replaced(replacement)))
  }

  ghost predicate Next(s: State, step: Step, t: State) {
    match step
    case Tick(seconds) => t == s.(clock := s.clock + seconds)
    case SetAllowed(emails) => t == s.(allowed := emails)
    case Begin(id, begun, token) =>
      && id !in s.families && token !in s.issued && begun.begunAt == s.clock && begun.email in s.allowed
      && (forall q :: q in s.exchanges && s.exchanges[q].Holding? ==> s.exchanges[q].grant.expiresAt > s.clock)
      && t == AfterBegin(s, id, begun, token)
    case Start(p, token, client) =>
      p !in s.exchanges && t == At(s, p, Started(token, client))
    case Peek(p) =>
      && p in s.exchanges && s.exchanges[p].Started? && PurgeUnblocked(s, p)
      && t == AfterPeek(s, p, s.exchanges[p].token, s.exchanges[p].client)
    case Authenticate(p) =>  // a wrong secret ends the exchange before anything is consumed
      && p in s.exchanges && s.exchanges[p].Peeked?
      && t == At(s, p, Answered(s.exchanges[p].token, InvalidClient))
    case Consume(p) =>
      && p in s.exchanges && s.exchanges[p].Peeked? && PurgeUnblocked(s, p) && RowUnlocked(s, s.exchanges[p].token)
      && t == AfterConsume(s, p, s.exchanges[p].token, s.exchanges[p].family)
    case Revoke(p) =>
      && p in s.exchanges && s.exchanges[p].Lost? && FamilyUnlocked(s, s.exchanges[p].family)
      && t == AfterRevoke(s, p, s.exchanges[p].token, s.exchanges[p].family, s.exchanges[p].at)
    case Finish(p, replacement) =>
      && p in s.exchanges && s.exchanges[p].Holding? && PurgeUnblocked(s, p) && replacement !in s.issued
      && var e := s.exchanges[p];
      && e.grant.values.subject.Some? && e.grant.values.email.Some?
      && t == AfterFinish(s, p, e.token, e.grant, e.at, replacement)
    case Die(p) =>  // nothing of the transaction was committed, and its locks are released
      && p in s.exchanges && !s.exchanges[p].Answered?
      && t == At(s, p, Answered(s.exchanges[p].token, Died))
  }

  function Initial(allowed: set<string>): State {
    State(0, map[], allowed, map[], map[], {}, {}, [], [])
  }

  ghost predicate Run(states: seq<State>, steps: seq<Step>) {
    Leads(Next, states, steps)
  }

  // --- The invariant ----------------------------------------------------------

  predicate Unconsumed(tokens: Rows<Refresh>, k: StoredKey) {
    k in tokens && tokens[k].values.consumedAt.None?
  }

  /** A row carries its family's client, scope and deadline, and an identity exactly until consumed. */
  predicate RowOfFamily(row: Row<Refresh>, family: Family) {
    && row.values.client == family.client && row.values.scope == family.scope && row.expiresAt == family.deadline
    && (row.values.consumedAt.None? ==>
          row.values.subject == Some(family.subject) && row.values.email == Some(family.email))
    && (row.values.consumedAt.Some? ==> row.values.subject.None? && row.values.email.None?)
  }

  ghost predicate RowsWellFormed(tokens: Rows<Refresh>, issued: set<StoredKey>, families: map<nat, Family>,
                                 dead: set<nat>)
  {
    forall k :: k in tokens ==>
      && k in issued && tokens[k].values.family in families && tokens[k].values.family !in dead
      && RowOfFamily(tokens[k], families[tokens[k].values.family])
  }

  ghost predicate OneLivePerFamily(tokens: Rows<Refresh>) {
    forall k, l :: Unconsumed(tokens, k) && Unconsumed(tokens, l) && tokens[k].values.family == tokens[l].values.family
      ==> k == l
  }

  /** A lock is its holder's own, and the row behind it is still as the holder read it. */
  ghost predicate LocksHeld(exchanges: map<nat, Exchange>, tokens: Rows<Refresh>) {
    && (forall p :: p in exchanges && exchanges[p].Holding? ==>
          Unconsumed(tokens, exchanges[p].token) && tokens[exchanges[p].token] == exchanges[p].grant)
    && (forall p, q :: p in exchanges && q in exchanges && p != q && exchanges[p].Holding? && exchanges[q].Holding? ==>
          exchanges[p].token != exchanges[q].token)
  }

  ghost predicate HeldInTime(exchanges: map<nat, Exchange>, families: map<nat, Family>, clock: Time) {
    forall p :: p in exchanges && exchanges[p].Holding? ==>
      && exchanges[p].at < exchanges[p].grant.expiresAt && exchanges[p].at <= clock
      && exchanges[p].grant.values.family in families
      && families[exchanges[p].grant.values.family].begunAt <= exchanges[p].at
  }

  ghost predicate ReadersKnown(exchanges: map<nat, Exchange>, families: map<nat, Family>, clock: Time) {
    && (forall p :: p in exchanges && (exchanges[p].Peeked? || exchanges[p].Lost?) ==> exchanges[p].family in families)
    && (forall p, q :: p in exchanges && q in exchanges && exchanges[p].Lost? && exchanges[q].Holding? ==>
          exchanges[p].at < exchanges[q].grant.expiresAt)
    && (forall p :: p in exchanges && exchanges[p].Lost? ==> exchanges[p].at <= clock)
  }

  ghost predicate RotatedOnce(rotations: seq<(StoredKey, StoredKey)>, tokens: Rows<Refresh>, issued: set<StoredKey>) {
    && (forall i :: 0 <= i < |rotations| ==> rotations[i].0 in issued && !Unconsumed(tokens, rotations[i].0))
    && (forall i, j :: 0 <= i < j < |rotations| ==> rotations[i].0 != rotations[j].0)
  }

  /** Every access token names who signed in, for a grant redeemed before the family's deadline. */
  ghost predicate MintsHonest(minted: seq<Mint>, families: map<nat, Family>) {
    forall i :: 0 <= i < |minted| ==>
      && minted[i].family in families
      && minted[i].subject == families[minted[i].family].subject
      && minted[i].email == families[minted[i].family].email
      && families[minted[i].family].begunAt <= minted[i].redeemedAt < families[minted[i].family].deadline
      && minted[i].redeemedAt <= minted[i].mintedAt
  }

  ghost predicate FamiliesKnown(families: map<nat, Family>, dead: set<nat>, clock: Time) {
    && dead <= families.Keys
    && (forall f :: f in families ==> families[f].begunAt <= clock)
  }

  ghost predicate Inv(s: State) {
    && RowsWellFormed(s.tokens, s.issued, s.families, s.dead)
    && OneLivePerFamily(s.tokens)
    && LocksHeld(s.exchanges, s.tokens)
    && HeldInTime(s.exchanges, s.families, s.clock)
    && ReadersKnown(s.exchanges, s.families, s.clock)
    && RotatedOnce(s.rotations, s.tokens, s.issued)
    && MintsHonest(s.minted, s.families)
    && FamiliesKnown(s.families, s.dead, s.clock)
  }

  // --- Every step keeps it ----------------------------------------------------

  /** Deleting rows nobody holds keeps everything said about the rest. */
  lemma DeleteKeepsInv(s: State, t: State)
    requires Inv(s) && Submap(t.tokens, s.tokens)
    requires t == s.(tokens := t.tokens)
    requires forall p :: p in s.exchanges && s.exchanges[p].Holding? ==> s.exchanges[p].token in t.tokens
    ensures Inv(t)
  {}

  /** An exchange that holds nothing may move on. */
  lemma MoveKeepsInv(s: State, p: nat, e: Exchange)
    requires Inv(s) && !e.Holding?
    requires e.Peeked? || e.Lost? ==> e.family in s.families
    requires e.Lost? ==> e.at == s.clock && PurgeUnblocked(s, p)
    ensures Inv(At(s, p, e))
  {
    MoveKeepsReaders(s, p, e);
    hide RowsWellFormed, OneLivePerFamily, ReadersKnown, RotatedOnce, MintsHonest, FamiliesKnown;
  }

  lemma MoveKeepsReaders(s: State, p: nat, e: Exchange)
    requires HeldInTime(s.exchanges, s.families, s.clock) && ReadersKnown(s.exchanges, s.families, s.clock)
             && !e.Holding?
    requires e.Peeked? || e.Lost? ==> e.family in s.families
    requires e.Lost? ==> e.at == s.clock && PurgeUnblocked(s, p)
    ensures ReadersKnown(s.exchanges[p := e], s.families, s.clock)
  {
    var after := s.exchanges[p := e];
    forall q | q in after && q != p ensures q in s.exchanges && after[q] == s.exchanges[q] {
    }
  }

  lemma KillKeepsInv(s: State, family: nat)
    requires Inv(s) && family in s.families && forall k :: k in s.tokens ==> s.tokens[k].values.family != family
    ensures Inv(s.(dead := s.dead + {family}))
  {}

  lemma PeekKeepsInv(s: State, p: nat, t: State)
    requires Inv(s) && Next(s, Peek(p), t)
    ensures Inv(t)
  {
    hide OneLivePerFamily, RotatedOnce, MintsHonest, FamiliesKnown;
    var purged := s.(tokens := Purged(s.tokens, s.clock));
    DeleteKeepsInv(s, purged);
    var e := s.exchanges[p];
    match Find(purged.tokens, e.token)
    case None => MoveKeepsInv(purged, p, Answered(e.token, InvalidGrant));
    case Some(grant) =>
      MoveKeepsInv(purged, p, Answered(e.token, InvalidGrant));
      MoveKeepsInv(purged, p, Peeked(e.token, grant.values.family));
  }

  lemma ConsumeKeepsInv(s: State, p: nat, t: State)
    requires Inv(s) && Next(s, Consume(p), t)
    ensures Inv(t)
  {
    var e := s.exchanges[p];
    match Consumed(Purged(s.tokens, s.clock), e.token, s.clock).1
    case None => MoveKeepsInv(s, p, Lost(e.token, e.family, s.clock));
    case Some(grant) => HoldKeepsInv(s, p, e.token);
  }

  lemma HoldKeepsInv(s: State, p: nat, token: StoredKey)
    requires Inv(s) && PurgeUnblocked(s, p) && RowUnlocked(s, token) && Redeemable(s.tokens, token, s.clock)
    ensures Inv(At(s, p, Holding(token, s.tokens[token], s.clock)))
  {
    hide OneLivePerFamily, RotatedOnce, MintsHonest;
  }

  lemma RevokeKeepsInv(s: State, p: nat, t: State)
    requires Inv(s) && Next(s, Revoke(p), t)
    ensures Inv(t)
  {
    hide RowsWellFormed, OneLivePerFamily, RotatedOnce, MintsHonest, FamiliesKnown;
    var e := s.exchanges[p];
    var revoked := s.(tokens := WithoutFamily(Purged(s.tokens, e.at), e.family));
    DeleteKeepsInv(s, revoked);
    KillKeepsInv(revoked, e.family);
    MoveKeepsInv(revoked.(dead := s.dead + {e.family}), p, Answered(e.token, Reused));
  }

  /** A new live row in a family that has none, of a token never issued before. */
  lemma AddKeepsInv(s: State, t: State, token: StoredKey, id: nat)
    requires Inv(s) && token !in s.issued && id in s.families && id !in s.dead
    requires forall k :: Unconsumed(s.tokens, k) ==> s.tokens[k].values.family != id
    requires t == s.(tokens := s.tokens[token := s.families[id].Token(id)], issued := s.issued + {token})
    ensures Inv(t)
  {
    hide MintsHonest, FamiliesKnown;
  }

  lemma MintKeepsInv(s: State, m: Mint)
    requires Inv(s) && m.family in s.families
    requires var family := s.families[m.family];
             && m.subject == family.subject && m.email == family.email
             && family.begunAt <= m.redeemedAt < family.deadline && m.redeemedAt <= m.mintedAt
    ensures Inv(s.(minted := s.minted + [m]))
  {
    hide RowsWellFormed, OneLivePerFamily, RotatedOnce, FamiliesKnown, LocksHeld, HeldInTime, ReadersKnown;
  }

  lemma KnowKeepsInv(s: State, id: nat, begun: Family)
    requires Inv(s) && id !in s.families && begun.begunAt == s.clock
    ensures Inv(s.(families := s.families[id := begun]))
  {
    hide OneLivePerFamily, RotatedOnce, RowOfFamily;
  }

  lemma BeginKeepsInv(s: State, id: nat, begun: Family, token: StoredKey, t: State)
    requires Inv(s) && Next(s, Begin(id, begun, token), t)
    ensures Inv(t)
  {
    hide RowOfFamily, OneLivePerFamily, RotatedOnce, MintsHonest;
    if t != s {
      var purged := s.(tokens := Purged(s.tokens, s.clock));
      DeleteKeepsInv(s, purged);
      KnowKeepsInv(purged, id, begun);
      var known := purged.(families := s.families[id := begun]);
      var added := known.(tokens := purged.tokens[token := begun.Token(id)], issued := s.issued + {token});
      AddKeepsInv(known, added, token, id);
      MintKeepsInv(added, Mint(id, begun.subject, begun.email, s.clock, s.clock));
    }
  }

  lemma HolderHasTheLiveRow(s: State, p: nat)
    requires Inv(s) && p in s.exchanges && s.exchanges[p].Holding?
    ensures var e := s.exchanges[p];
            var family := e.grant.values.family;
            && e.token in s.issued && family in s.families && family !in s.dead
            && Unconsumed(s.tokens, e.token) && s.tokens[e.token] == e.grant == s.families[family].Token(family)
            && s.families[family].begunAt <= e.at < s.families[family].deadline
            && (forall k :: Unconsumed(s.tokens, k) && k != e.token ==> s.tokens[k].values.family != family)
            && (forall i :: 0 <= i < |s.rotations| ==> s.rotations[i].0 != e.token)
  {
    hide MintsHonest;
  }

  /** What a finishing exchange sees: its family has no live row left, and everything else is as before. */
  ghost predicate Seen(s: State, p: nat, t: State) {
    && p in s.exchanges && s.exchanges[p].Holding?
    && var e := s.exchanges[p];
    && t == At(s.(tokens := View(s, e.token, e.grant, e.at)), p, Answered(e.token, AtCapacity))
  }

  lemma ViewWellFormed(s: State, p: nat, t: State)
    requires Inv(s) && Seen(s, p, t)
    ensures RowsWellFormed(t.tokens, t.issued, t.families, t.dead)
  {
    HolderHasTheLiveRow(s, p);
    hide MintsHonest, FamiliesKnown, LocksHeld, HeldInTime, ReadersKnown, OneLivePerFamily, RotatedOnce;
  }

  lemma ViewRows(s: State, p: nat, t: State)
    requires Inv(s) && Seen(s, p, t)
    ensures RowsWellFormed(t.tokens, t.issued, t.families, t.dead)
    ensures OneLivePerFamily(t.tokens) && RotatedOnce(t.rotations, t.tokens, t.issued)
    ensures forall k :: Unconsumed(t.tokens, k) ==> Unconsumed(s.tokens, k) && k != s.exchanges[p].token
  {
    ViewWellFormed(s, p, t);
    HolderHasTheLiveRow(s, p);
    hide MintsHonest, FamiliesKnown, LocksHeld, HeldInTime, ReadersKnown, RowsWellFormed;
  }

  lemma ViewInFlight(s: State, p: nat, t: State)
    requires Inv(s) && Seen(s, p, t) && PurgeUnblocked(s, p)
    ensures LocksHeld(t.exchanges, t.tokens) && HeldInTime(t.exchanges, t.families, t.clock)
    ensures ReadersKnown(t.exchanges, t.families, t.clock)
  {
    hide MintsHonest, FamiliesKnown, OneLivePerFamily, RowsWellFormed, RotatedOnce;
  }

  lemma RotateKeepsInv(s: State, token: StoredKey, replacement: StoredKey)
    requires Inv(s) && token in s.issued && !Unconsumed(s.tokens, token)
    requires forall i :: 0 <= i < |s.rotations| ==> s.rotations[i].0 != token
    ensures Inv(s.(rotations := s.rotations + [(token, replacement)]))
  {
    hide RowsWellFormed, OneLivePerFamily, MintsHonest, FamiliesKnown, LocksHeld, HeldInTime, ReadersKnown;
  }

  lemma NotAllowedKeepsInv(s: State, p: nat, view: State)
    requires Inv(s) && Seen(s, p, view) && Inv(view)
    ensures var e, family := s.exchanges[p], s.exchanges[p].grant.values.family;
            Inv(At(view.(tokens := WithoutFamily(view.tokens, family), dead := s.dead + {family}), p,
                   Answered(e.token, NotAllowed)))
  {
    hide RowsWellFormed, OneLivePerFamily, RotatedOnce, MintsHonest, FamiliesKnown;
    var e, family := s.exchanges[p], s.exchanges[p].grant.values.family;
    HolderHasTheLiveRow(s, p);
    ViewRows(s, p, view);
    var revoked := view.(tokens := WithoutFamily(view.tokens, family));
    DeleteKeepsInv(view, revoked);
    KillKeepsInv(revoked, family);
    MoveKeepsInv(revoked.(dead := s.dead + {family}), p, Answered(e.token, NotAllowed));
  }

  lemma ReplacedKeepsInv(s: State, p: nat, view: State, replacement: StoredKey)
    requires Inv(s) && Seen(s, p, view) && Inv(view) && PurgeUnblocked(s, p) && replacement !in s.issued
    ensures var e, g := s.exchanges[p], s.exchanges[p].grant.values;
            && g.family in s.families && g.subject.Some? && g.email.Some?
            && Inv(At(view.(tokens := Purged(view.tokens, s.clock)[replacement := s.families[g.family].Token(g.family)],
                            issued := s.issued + {replacement}, rotations := s.rotations + [(e.token, replacement)],
                            minted := s.minted + [Mint(g.family, g.subject.value, g.email.value, e.at, s.clock)]),
                      p, Answered(e.token, Replaced(replacement))))
  {
    hide RowsWellFormed, OneLivePerFamily, RotatedOnce, MintsHonest, FamiliesKnown;
    var e, g := s.exchanges[p], s.exchanges[p].grant.values;
    HolderHasTheLiveRow(s, p);
    ViewRows(s, p, view);
    var purged := view.(tokens := Purged(view.tokens, s.clock));
    DeleteKeepsInv(view, purged);
    var added := purged.(tokens := purged.tokens[replacement := s.families[g.family].Token(g.family)],
                         issued := s.issued + {replacement});
    AddKeepsInv(purged, added, replacement, g.family);
    RotateKeepsInv(added, e.token, replacement);
    var rotated := added.(rotations := s.rotations + [(e.token, replacement)]);
    var mint := Mint(g.family, g.subject.value, g.email.value, e.at, s.clock);
    MintKeepsInv(rotated, mint);
    MoveKeepsInv(rotated.(minted := s.minted + [mint]), p, Answered(e.token, Replaced(replacement)));
  }

  /** The three ways to finish, in terms of what the exchange sees. */
  lemma FinishCases(s: State, p: nat, replacement: StoredKey, view: State, t: State)
    requires Inv(s) && Next(s, Finish(p, replacement), t) && Seen(s, p, view)
    ensures var e, g := s.exchanges[p], s.exchanges[p].grant.values;
            && g.family in s.families && g.subject.Some? && g.email.Some?
            && (|| t == At(view.(tokens := WithoutFamily(view.tokens, g.family), dead := s.dead + {g.family}), p,
                           Answered(e.token, NotAllowed))
                || t == At(s, p, Answered(e.token, AtCapacity))
                || t == At(view.(tokens := Purged(view.tokens, s.clock)
                                           [replacement := s.families[g.family].Token(g.family)],
                                 issued := s.issued + {replacement},
                                 rotations := s.rotations + [(e.token, replacement)],
                                 minted := s.minted + [Mint(g.family, g.subject.value, g.email.value, e.at, s.clock)]),
                           p, Answered(e.token, Replaced(replacement))))
  {
    hide Purged, MarkedConsumed, WithoutFamily, Others, RowsWellFormed, OneLivePerFamily, RotatedOnce, MintsHonest,
      FamiliesKnown, LocksHeld, HeldInTime, ReadersKnown;
    HolderHasTheLiveRow(s, p);
    var token := s.exchanges[p].token;
    assert view.exchanges[p := Answered(token, NotAllowed)] == s.exchanges[p := Answered(token, NotAllowed)];
    assert view.exchanges[p := Answered(token, Replaced(replacement))]
        == s.exchanges[p := Answered(token, Replaced(replacement))];
  }

  lemma FinishKeepsInv(s: State, p: nat, replacement: StoredKey, t: State)
    requires Inv(s) && Next(s, Finish(p, replacement), t)
    ensures Inv(t)
  {
    hide Purged, MarkedConsumed, WithoutFamily, RowsWellFormed, OneLivePerFamily, RotatedOnce, MintsHonest,
        FamiliesKnown, LocksHeld, HeldInTime, ReadersKnown;
    var e := s.exchanges[p];
    var view := At(s.(tokens := View(s, e.token, e.grant, e.at)), p, Answered(e.token, AtCapacity));
    ViewRows(s, p, view);
    ViewInFlight(s, p, view);
    FinishCases(s, p, replacement, view, t);
    hide AfterFinish;
    NotAllowedKeepsInv(s, p, view);
    ReplacedKeepsInv(s, p, view, replacement);
    MoveKeepsInv(s, p, Answered(e.token, AtCapacity));
  }

  /** Whatever step any exchange takes next. */
  lemma StepKeepsInv(s: State, step: Step, t: State)
    requires Inv(s) && Next(s, step, t)
    ensures Inv(t)
  {
    match step
    case Tick(_) =>
    case SetAllowed(_) =>
    case Begin(id, begun, token) => BeginKeepsInv(s, id, begun, token, t);
    case Start(p, token, client) => MoveKeepsInv(s, p, Started(token, client));
    case Peek(p) => PeekKeepsInv(s, p, t);
    case Authenticate(p) => MoveKeepsInv(s, p, Answered(s.exchanges[p].token, InvalidClient));
    case Consume(p) => ConsumeKeepsInv(s, p, t);
    case Revoke(p) => RevokeKeepsInv(s, p, t);
    case Finish(p, replacement) => FinishKeepsInv(s, p, replacement, t);
    case Die(p) => MoveKeepsInv(s, p, Answered(s.exchanges[p].token, Died));
  }

  /** Every committed state of every interleaving satisfies the invariant. */
  lemma {:induction false} ReachableInv(states: seq<State>, steps: seq<Step>, allowed: set<string>, i: nat)
    requires Run(states, steps) && states[0] == Initial(allowed) && i < |states|
    ensures Inv(states[i])
  {
    if i > 0 {
      ReachableInv(states, steps, allowed, i - 1);
      StepKeepsInv(states[i - 1], steps[i - 1], states[i]);
    }
  }
}
