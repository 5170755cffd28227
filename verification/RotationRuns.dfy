/** What every run of the rotation protocol promises: one replacement, replay that revokes, the thirty days. */
module RotationRuns {
  import opened Prelude
  import opened OauthState
  import opened Runs
  import opened Rotation

  /**
   * In every committed state a family has at most one unconsumed row, and every row carries what
   * the code exchange fixed and an identity exactly until it is consumed.
   */
  lemma RowsAreSafe(states: seq<State>, steps: seq<Step>, allowed: set<string>, i: nat, k: StoredKey)
    requires Run(states, steps) && states[0] == Initial(allowed) && i < |states| && k in states[i].tokens
    ensures var s, family := states[i], states[i].tokens[k].values.family;
            && family in s.families && RowOfFamily(s.tokens[k], s.families[family])
            && forall l :: Unconsumed(s.tokens, k) && Unconsumed(s.tokens, l) && s.tokens[l].values.family == family ==>
                 l == k
  {
    ReachableInv(states, steps, allowed, i);
  }

  /**
   * Every access token ever minted names the account whose code exchange began its family, for a
   * grant redeemed from that exchange on and before thirty days after it.
   */
  lemma MintsCarryTheSignIn(states: seq<State>, steps: seq<Step>, allowed: set<string>, i: nat, m: nat)
    requires Run(states, steps) && states[0] == Initial(allowed) && i < |states| && m < |states[i].minted|
    ensures var mint := states[i].minted[m];
            && mint.family in states[i].families
            && var family := states[i].families[mint.family];
            && mint.subject == family.subject && mint.email == family.email
            && family.begunAt <= mint.redeemedAt < family.begunAt + REFRESH_TTL && mint.redeemedAt <= mint.mintedAt
  {
    ReachableInv(states, steps, allowed, i);
  }

  /** What any step may add to the history, and what it must leave alone. */
  ghost predicate Extends(s: State, t: State) {
    && (forall f :: f in s.families ==> f in t.families && t.families[f] == s.families[f])
    && s.dead <= t.dead
    && s.rotations <= t.rotations
    && s.minted <= t.minted && |t.minted| <= |s.minted| + 1
    && (|t.minted| > |s.minted| ==> t.minted[|s.minted|].family !in s.dead)
  }

  lemma FinishExtends(s: State, p: nat, replacement: StoredKey, t: State)
    requires Inv(s) && Next(s, Finish(p, replacement), t)
    ensures Extends(s, t)
  {
    HolderHasTheLiveRow(s, p);
    hide Inv, View, WithoutFamily, StoreOrRefuse;
  }

  lemma BeginExtends(s: State, id: nat, begun: Family, token: StoredKey)
    requires id !in s.families && id !in s.dead
    ensures Extends(s, AfterBegin(s, id, begun, token))
  {
    hide StoreOrRefuse;
  }

  lemma OthersExtend(s: State, step: Step, t: State)
    requires Next(s, step, t) && !step.Finish? && !step.Begin?
    ensures Extends(s, t) && t.minted == s.minted
  {
    hide WithoutFamily, Consumed, Purged;
  }

  lemma StepExtends(s: State, step: Step, t: State)
    requires Inv(s) && Next(s, step, t)
    ensures Extends(s, t)
  {
    match step
    case Finish(p, replacement) =>
      hide Next, Inv, Extends;
      FinishExtends(s, p, replacement, t);
    case Begin(id, begun, token) =>
      assert id !in s.dead && t == AfterBegin(s, id, begun, token);
      hide Inv, Next, AfterBegin, Extends;
      BeginExtends(s, id, begun, token);
    case _ =>
      hide Inv, Next, Extends;
      OthersExtend(s, step, t);
  }

  /** A family, once begun, never changes. */
  lemma {:induction false} FamiliesAreFixed(states: seq<State>, steps: seq<Step>, allowed: set<string>, i: nat, j: nat,
                                            f: nat)
    requires Run(states, steps) && states[0] == Initial(allowed) && i <= j < |states| && f in states[i].families
    ensures f in states[j].families && states[j].families[f] == states[i].families[f]
  {
    hide Next, Inv;
    if i < j {
      FamiliesAreFixed(states, steps, allowed, i, j - 1, f);
      ReachableInv(states, steps, allowed, j - 1);
      StepExtends(states[j - 1], steps[j - 1], states[j]);
    }
  }

  /** The step that answers a token with its replacement. */
  ghost predicate Replaces(states: seq<State>, steps: seq<Step>, i: nat, token: StoredKey)
    requires i < |steps| && |states| == |steps| + 1
  {
    && steps[i].Finish? && steps[i].p in states[i].exchanges && states[i].exchanges[steps[i].p].Holding?
    && states[i].exchanges[steps[i].p].token == token
    && steps[i].p in states[i + 1].exchanges
    && states[i + 1].exchanges[steps[i].p] == Answered(token, Replaced(steps[i].replacement))
  }

  lemma {:induction false} RotationsRemembered(states: seq<State>, steps: seq<Step>, allowed: set<string>, i: nat,
                                               j: nat, token: StoredKey)
    requires Run(states, steps) && states[0] == Initial(allowed) && i < j < |states|
             && Replaces(states, steps, i, token)
    ensures exists r :: 0 <= r < |states[j].rotations| && states[j].rotations[r].0 == token
  {
    hide Next, Inv;
    if i + 1 < j {
      RotationsRemembered(states, steps, allowed, i, j - 1, token);
      ReachableInv(states, steps, allowed, j - 1);
      StepExtends(states[j - 1], steps[j - 1], states[j]);
      var r :| 0 <= r < |states[j - 1].rotations| && states[j - 1].rotations[r].0 == token;
      assert states[j].rotations[r].0 == token;
    } else {
      ReplacementRecorded(states, steps, i, token);
      assert states[j].rotations[|states[j].rotations| - 1].0 == token;
    }
  }

  lemma ReplacementRecorded(states: seq<State>, steps: seq<Step>, i: nat, token: StoredKey)
    requires |states| == |steps| + 1 && i < |steps| && Next(states[i], steps[i], states[i + 1])
             && Replaces(states, steps, i, token)
    ensures var s, t, e := states[i], states[i + 1], states[i].exchanges[steps[i].p];
            && t.rotations == s.rotations + [(token, steps[i].replacement)]
            && e.grant.values.subject.Some? && e.grant.values.email.Some?
            && t.minted == s.minted + [Mint(e.grant.values.family, e.grant.values.subject.value,
                                            e.grant.values.email.value, e.at, s.clock)]
  {
    hide View, WithoutFamily, Others;
  }

  /** However exchanges interleave, a token is answered with a replacement at most once ever. */
  lemma ReplacedAtMostOnce(states: seq<State>, steps: seq<Step>, allowed: set<string>, i: nat, j: nat, token: StoredKey)
    requires Run(states, steps) && states[0] == Initial(allowed) && i < j < |steps|
    requires Replaces(states, steps, i, token)
    ensures !Replaces(states, steps, j, token)
  {
    hide Next;
    RotationsRemembered(states, steps, allowed, i, j, token);
    ReachableInv(states, steps, allowed, j);
    if Replaces(states, steps, j, token) {
      HolderHasTheLiveRow(states[j], steps[j].p);
    }
  }

  /**
   * An exchange refused at capacity leaves every row as it was: its own token is unconsumed, and
   * redeemable until its deadline.
   */
  lemma CapacityRefusalChangesNothing(states: seq<State>, steps: seq<Step>, allowed: set<string>, i: nat, p: nat,
                                      now: Time)
    requires Run(states, steps) && states[0] == Initial(allowed) && i < |steps|
    requires steps[i].Finish? && steps[i].p == p
    requires p in states[i + 1].exchanges && states[i + 1].exchanges[p]
             == Answered(states[i].exchanges[p].token, AtCapacity)
    ensures states[i + 1].tokens == states[i].tokens
    ensures Unconsumed(states[i + 1].tokens, states[i].exchanges[p].token)
    ensures Redeemable(states[i + 1].tokens, states[i].exchanges[p].token, now)
            <==> now < states[i].exchanges[p].grant.expiresAt
    ensures states[i + 1].rotations == states[i].rotations && states[i + 1].minted == states[i].minted
  {
    ReachableInv(states, steps, allowed, i);
    assert Next(states[i], steps[i], states[i + 1]);
    HolderHasTheLiveRow(states[i], p);
    var e := states[i].exchanges[p];
    OnlyRefusalAnswersSo(states[i], p, e.token, e.grant, e.at, steps[i].replacement);
    hide Inv, Run, Next, AfterFinish;
  }

  lemma OnlyRefusalAnswersSo(s: State, p: nat, token: StoredKey, grant: Row<Refresh>, at: Time, replacement: StoredKey)
    requires grant.values.subject.Some? && grant.values.email.Some?
    requires AfterFinish(s, p, token, grant, at, replacement).exchanges[p] == Answered(token, AtCapacity)
    ensures AfterFinish(s, p, token, grant, at, replacement) == At(s, p, Answered(token, AtCapacity))
  {
    hide StoreOrRefuse, WithoutFamily, View;
  }

  /** Whoever consumes a token already replaced, replaying it or losing the race for it, has lost. */
  lemma ReplacedTokenIsLost(states: seq<State>, steps: seq<Step>, allowed: set<string>, i: nat, j: nat,
                            token: StoredKey)
    requires Run(states, steps) && states[0] == Initial(allowed) && i < j < |steps| && Replaces(states, steps, i, token)
    requires steps[j].Consume? && steps[j].p in states[j].exchanges
    requires states[j].exchanges[steps[j].p].Peeked? && states[j].exchanges[steps[j].p].token == token
    ensures states[j + 1].exchanges[steps[j].p] == Lost(token, states[j].exchanges[steps[j].p].family, states[j].clock)
  {
    RotationsRemembered(states, steps, allowed, i, j, token);
    ReachableInv(states, steps, allowed, j);
    assert Next(states[j], steps[j], states[j + 1]);
    hide RowsWellFormed, OneLivePerFamily, MintsHonest, LocksHeld, HeldInTime, ReadersKnown;
  }

  function MintsOf(minted: seq<Mint>, family: nat): nat {
    if minted == [] then 0
    else MintsOf(minted[..|minted| - 1], family) + if minted[|minted| - 1].family == family then 1 else 0
  }

  /**
   * A revoked family stays dead over every further run: no row of it is ever stored again, and no
   * exchange ever mints for it.
   */
  lemma {:induction false} RevokedFamilyStaysDead(states: seq<State>, steps: seq<Step>, allowed: set<string>, i: nat,
                                                  j: nat, family: nat)
    requires Run(states, steps) && states[0] == Initial(allowed) && i <= j < |states| && family in states[i].dead
    ensures family in states[j].dead
    ensures forall k :: k in states[j].tokens ==> states[j].tokens[k].values.family != family
    ensures MintsOf(states[j].minted, family) == MintsOf(states[i].minted, family)
  {
    hide Next, Inv;
    if i < j {
      RevokedFamilyStaysDead(states, steps, allowed, i, j - 1, family);
      ReachableInv(states, steps, allowed, j - 1);
      StepExtends(states[j - 1], steps[j - 1], states[j]);
      if |states[j].minted| > |states[j - 1].minted| {
        assert states[j].minted[..|states[j].minted| - 1] == states[j - 1].minted;
      } else {
        assert states[j].minted == states[j - 1].minted;
      }
    }
    ReachableInv(states, steps, allowed, j);
    DeadHaveNoRows(states[j]);
  }

  // --- The family a token belongs to ----------------------------------------------

  /** A step keeps the family of every row, and a new row is of a token never issued before. */
  ghost predicate KeepsRowFamilies(s: State, t: State) {
    && s.issued <= t.issued
    && forall k :: k in t.tokens ==>
         if k in s.tokens then t.tokens[k].values.family == s.tokens[k].values.family else k !in s.issued
  }

  lemma FinishRows(s: State, p: nat, token: StoredKey, grant: Row<Refresh>, at: Time, replacement: StoredKey)
    requires grant.values.subject.Some? && grant.values.email.Some?
    ensures var view, t := View(s, token, grant, at), AfterFinish(s, p, token, grant, at, replacement);
            && s.issued <= t.issued
            && (t.tokens == s.tokens || forall k :: k in t.tokens && k != replacement ==>
                  k in view && t.tokens[k] == view[k])
  {
    hide View, Others;
  }

  lemma ViewKeepsRowFamilies(s: State, p: nat)
    requires Inv(s) && p in s.exchanges && s.exchanges[p].Holding?
    ensures var e := s.exchanges[p];
            forall k :: k in View(s, e.token, e.grant, e.at) ==>
              k in s.tokens && View(s, e.token, e.grant, e.at)[k].values.family == s.tokens[k].values.family
  {
    HolderHasTheLiveRow(s, p);
    hide Inv;
  }

  lemma FinishKeepsRowFamilies(s: State, p: nat, replacement: StoredKey, t: State)
    requires Inv(s) && Next(s, Finish(p, replacement), t)
    ensures KeepsRowFamilies(s, t)
  {
    RowsAreIssued(s);
    ViewKeepsRowFamilies(s, p);
    var e := s.exchanges[p];
    FinishRows(s, p, e.token, e.grant, e.at, replacement);
    hide Inv, View, AfterFinish;
  }

  lemma BeginKeepsRowFamilies(s: State, id: nat, begun: Family, token: StoredKey, t: State)
    requires Inv(s) && Next(s, Begin(id, begun, token), t)
    ensures KeepsRowFamilies(s, t)
  {
    RowsAreIssued(s);
    hide Inv, Others;
  }

  lemma StepKeepsRowFamilies(s: State, step: Step, t: State)
    requires Inv(s) && Next(s, step, t)
    ensures KeepsRowFamilies(s, t)
  {
    match step
    case Finish(p, replacement) => FinishKeepsRowFamilies(s, p, replacement, t);
    case Begin(id, begun, token) => BeginKeepsRowFamilies(s, id, begun, token, t);
    case _ =>
      hide Inv, Consumed;
  }

  lemma RowsAreIssued(s: State)
    requires Inv(s)
    ensures forall k :: k in s.tokens ==> k in s.issued
  {
    hide OneLivePerFamily, RotatedOnce, MintsHonest, LocksHeld, HeldInTime, ReadersKnown, FamiliesKnown, RowOfFamily;
  }

  /** Once issued a token never comes back in another family: not even after its row is gone. */
  lemma {:induction false} RowFamilyIsFixed(states: seq<State>, steps: seq<Step>, allowed: set<string>, i: nat, j: nat,
                                            k: StoredKey)
    requires Run(states, steps) && states[0] == Initial(allowed) && i <= j < |states|
    requires k in states[i].tokens
    ensures k in states[j].issued
    ensures k in states[j].tokens ==> states[j].tokens[k].values.family == states[i].tokens[k].values.family
  {
    hide Next, Inv;
    ReachableInv(states, steps, allowed, i);
    RowsAreIssued(states[i]);
    if i < j {
      RowFamilyIsFixed(states, steps, allowed, i, j - 1, k);
      ReachableInv(states, steps, allowed, j - 1);
      StepKeepsRowFamilies(states[j - 1], steps[j - 1], states[j]);
    }
  }

  /** What an exchange carries of its token's family was read from the token's row. */
  lemma PeekReadsTheRow(s: State, step: Step, t: State, p: nat)
    requires Next(s, step, t) && p in t.exchanges && (t.exchanges[p].Peeked? || t.exchanges[p].Lost?)
    ensures var e := t.exchanges[p];
            || (p in s.exchanges && (s.exchanges[p].Peeked? || s.exchanges[p].Lost?)
                && s.exchanges[p].token == e.token && s.exchanges[p].family == e.family)
            || (e.token in t.tokens && t.tokens[e.token].values.family == e.family)
  {
    hide Purged, Consumed, WithoutFamily, StoreOrRefuse;
  }

  /** Every peeked or lost exchange carries the family its token's row had when it was read. */
  lemma {:induction false} ReadFamily(states: seq<State>, steps: seq<Step>, allowed: set<string>, j: nat, p: nat)
    returns (i: nat)
    requires Run(states, steps) && states[0] == Initial(allowed) && j < |states|
    requires p in states[j].exchanges && (states[j].exchanges[p].Peeked? || states[j].exchanges[p].Lost?)
    ensures var e := states[j].exchanges[p];
            i <= j && e.token in states[i].tokens && states[i].tokens[e.token].values.family == e.family
  {
    hide Next;
    PeekReadsTheRow(states[j - 1], steps[j - 1], states[j], p);
    var e := states[j].exchanges[p];
    if e.token in states[j].tokens && states[j].tokens[e.token].values.family == e.family {
      i := j;
    } else {
      i := ReadFamily(states, steps, allowed, j - 1, p);
    }
  }

  /** Whoever read a token that was replaced carries the family of the exchange that replaced it. */
  lemma LoserSharesTheFamily(states: seq<State>, steps: seq<Step>, allowed: set<string>, i: nat, k: nat, p: nat,
                             token: StoredKey)
    requires Run(states, steps) && states[0] == Initial(allowed) && i < |steps| && k < |states|
             && Replaces(states, steps, i, token)
    requires p in states[k].exchanges && (states[k].exchanges[p].Peeked? || states[k].exchanges[p].Lost?)
    requires states[k].exchanges[p].token == token
    ensures states[k].exchanges[p].family == states[i].exchanges[steps[i].p].grant.values.family
  {
    hide Next;
    ReachableInv(states, steps, allowed, i);
    HolderHasTheLiveRow(states[i], steps[i].p);
    var read := ReadFamily(states, steps, allowed, k, p);
    hide Inv;
    if read <= i {
      RowFamilyIsFixed(states, steps, allowed, read, i, token);
    } else {
      RowFamilyIsFixed(states, steps, allowed, i, read, token);
    }
  }

  /**
   * Replay, in any interleaving: once a token has been replaced, the revocation by whoever lost it
   * empties the winner's own family, the replacement included, and no later state of the run has a
   * row of it or another mint for it.
   */
  lemma ReplayRevokesTheWinner(states: seq<State>, steps: seq<Step>, allowed: set<string>, i: nat, k: nat, j: nat,
                               token: StoredKey)
    requires Run(states, steps) && states[0] == Initial(allowed) && i < k < j < |states|
             && Replaces(states, steps, i, token)
    requires steps[k].Revoke? && steps[k].p in states[k].exchanges
    requires states[k].exchanges[steps[k].p].Lost? && states[k].exchanges[steps[k].p].token == token
    ensures var family := states[i].exchanges[steps[i].p].grant.values.family;
            && family in states[j].dead
            && (forall l :: l in states[j].tokens ==> states[j].tokens[l].values.family != family)
            && steps[i].replacement !in states[j].tokens
            && MintsOf(states[j].minted, family) == MintsOf(states[k + 1].minted, family)
  {
    var family := states[i].exchanges[steps[i].p].grant.values.family;
    LoserSharesTheFamily(states, steps, allowed, i, k, steps[k].p, token);
    assert Next(states[k], steps[k], states[k + 1]);
    assert family in states[k + 1].dead;
    hide Next;
    RevokedFamilyStaysDead(states, steps, allowed, k + 1, j, family);
    ReplacementIsOfTheFamily(states, steps, allowed, i, token);
    hide Run, Inv;
    RowFamilyIsFixed(states, steps, allowed, i + 1, j, steps[i].replacement);
  }

  lemma ReplacementIsOfTheFamily(states: seq<State>, steps: seq<Step>, allowed: set<string>, i: nat, token: StoredKey)
    requires Run(states, steps) && states[0] == Initial(allowed) && i < |steps| && Replaces(states, steps, i, token)
    ensures var row := states[i].exchanges[steps[i].p].grant;
            && steps[i].replacement in states[i + 1].tokens
            && states[i + 1].tokens[steps[i].replacement].values.family == row.values.family
  {
    assert Next(states[i], steps[i], states[i + 1]);
    hide View, WithoutFamily, Others, Run;
  }

  // --- A replay is recognised -----------------------------------------------------

  /** The row is still there, its deadline has passed, or its family was revoked. */
  predicate Accounted(row: Row<Refresh>, k: StoredKey, t: State) {
    || (k in t.tokens && t.tokens[k].values.family == row.values.family && t.tokens[k].expiresAt == row.expiresAt)
    || t.clock >= row.expiresAt
    || row.values.family in t.dead
  }

  lemma ViewAccounts(s: State, p: nat, k: StoredKey)
    requires Inv(s) && p in s.exchanges && s.exchanges[p].Holding? && k in s.tokens
    ensures var e := s.exchanges[p];
            Accounted(s.tokens[k], k, s.(tokens := View(s, e.token, e.grant, e.at)))
  {
    HolderHasTheLiveRow(s, p);
    assert s.exchanges[p].at <= s.clock;
    hide Inv;
  }

  lemma FinishKeepsAccount(s: State, p: nat, token: StoredKey, grant: Row<Refresh>, at: Time, replacement: StoredKey,
                           k: StoredKey)
    requires grant.values.subject.Some? && grant.values.email.Some? && k in s.tokens && k != replacement
    requires Accounted(s.tokens[k], k, s.(tokens := View(s, token, grant, at)))
    ensures Accounted(s.tokens[k], k, AfterFinish(s, p, token, grant, at, replacement))
  {
    hide View, Others;
  }

  lemma FinishAccounts(s: State, p: nat, replacement: StoredKey, k: StoredKey, t: State)
    requires Inv(s) && Next(s, Finish(p, replacement), t) && k in s.tokens
    ensures Accounted(s.tokens[k], k, t)
  {
    ViewAccounts(s, p, k);
    RowsAreIssued(s);
    hide Inv, View, AfterFinish, Accounted;
    var e := s.exchanges[p];
    FinishKeepsAccount(s, p, e.token, e.grant, e.at, replacement, k);
  }

  lemma RevokeAccounts(s: State, p: nat, k: StoredKey, t: State)
    requires Next(s, Revoke(p), t) && k in s.tokens && s.exchanges[p].at <= s.clock
    ensures Accounted(s.tokens[k], k, t)
  {
    hide AfterBegin, AfterPeek, AfterConsume, AfterFinish;
  }

  lemma BeginAccounts(s: State, id: nat, begun: Family, token: StoredKey, k: StoredKey)
    requires k in s.tokens && token !in s.tokens
    ensures Accounted(s.tokens[k], k, AfterBegin(s, id, begun, token))
  {
    hide Others;
  }

  lemma OthersAccount(s: State, step: Step, t: State, k: StoredKey)
    requires Next(s, step, t) && !step.Finish? && !step.Revoke? && !step.Begin? && k in s.tokens
    ensures Accounted(s.tokens[k], k, t)
  {
    hide AfterBegin, AfterRevoke, AfterFinish, Consumed;
  }

  lemma StepAccounts(s: State, step: Step, t: State, k: StoredKey)
    requires Inv(s) && Next(s, step, t) && k in s.tokens
    ensures Accounted(s.tokens[k], k, t)
  {
    RowsAreIssued(s);
    match step
    case Finish(p, replacement) =>
      hide Inv, Next, Accounted;
      FinishAccounts(s, p, replacement, k, t);
    case Revoke(p) =>
      assert s.exchanges[p].at <= s.clock;
      hide Inv, Next, Accounted;
      RevokeAccounts(s, p, k, t);
    case Begin(id, begun, token) =>
      assert t == AfterBegin(s, id, begun, token) && token !in s.tokens;
      hide Inv, Next, Accounted, AfterBegin;
      BeginAccounts(s, id, begun, token, k);
    case _ =>
      hide Inv, Next, Accounted;
      OthersAccount(s, step, t, k);
  }

  lemma ClockAdvances(s: State, step: Step, t: State)
    requires Next(s, step, t)
    ensures s.clock <= t.clock
  {
    hide Purged, Consumed, WithoutFamily, StoreOrRefuse;
  }

  /** In any interleaving a row stays until its deadline unless its family is revoked, consumed or not. */
  lemma {:induction false} RowsLast(states: seq<State>, steps: seq<Step>, allowed: set<string>, i: nat, j: nat,
                                    k: StoredKey)
    requires Run(states, steps) && states[0] == Initial(allowed) && i <= j < |states| && k in states[i].tokens
    ensures Accounted(states[i].tokens[k], k, states[j])
  {
    hide Next, Inv;
    if i < j {
      RowsLast(states, steps, allowed, i, j - 1, k);
      var s, t := states[j - 1], states[j];
      ReachableInv(states, steps, allowed, j - 1);
      StepExtends(s, steps[j - 1], t);
      ClockAdvances(s, steps[j - 1], t);
      if k in s.tokens {
        StepAccounts(s, steps[j - 1], t, k);
      }
    }
  }

  lemma PeekFinds(s: State, p: nat, t: State)
    requires Next(s, Peek(p), t)
    ensures p in t.exchanges
    ensures var e := s.exchanges[p];
            e.token in s.tokens && s.clock < s.tokens[e.token].expiresAt
                && e.client == s.tokens[e.token].values.client != "" ==>
              t.exchanges[p] == Peeked(e.token, s.tokens[e.token].values.family)
  {
    hide AfterBegin, AfterConsume, AfterRevoke, AfterFinish;
  }

  /**
   * A replaced token presented by its client before the family's deadline is never taken for an
   * unknown one: it is read with its family, unless the family was already revoked.
   */
  lemma ReplayIsRecognised(states: seq<State>, steps: seq<Step>, allowed: set<string>, i: nat, j: nat, token: StoredKey)
    requires Run(states, steps) && states[0] == Initial(allowed) && i < j < |steps| && Replaces(states, steps, i, token)
    requires steps[j].Peek? && steps[j].p in states[j].exchanges && states[j].exchanges[steps[j].p].Started?
    requires var e, grant := states[j].exchanges[steps[j].p], states[i].exchanges[steps[i].p].grant;
             e.token == token && e.client == grant.values.client != "" && states[j].clock < grant.expiresAt
    ensures var family := states[i].exchanges[steps[i].p].grant.values.family;
            || family in states[j].dead
            || (steps[j].p in states[j + 1].exchanges && states[j + 1].exchanges[steps[j].p] == Peeked(token, family))
  {
    hide Next, Inv;
    ReachableInv(states, steps, allowed, i);
    HolderHasTheLiveRow(states[i], steps[i].p);
    RowsLast(states, steps, allowed, i, j, token);
    FamiliesAreFixed(states, steps, allowed, i, j, states[i].exchanges[steps[i].p].grant.values.family);
    if token in states[j].tokens {
      RowsAreSafe(states, steps, allowed, i, token);
      RowsAreSafe(states, steps, allowed, j, token);
      PeekFinds(states[j], steps[j].p, states[j + 1]);
    }
  }

  // --- What an answer tells of the run --------------------------------------------

  lemma AnsweredBy(s: State, step: Step, t: State, p: nat)
    requires Next(s, step, t) && p in t.exchanges && t.exchanges[p].Answered?
    requires !(p in s.exchanges && s.exchanges[p] == t.exchanges[p])
    ensures p in s.exchanges && s.exchanges[p].token == t.exchanges[p].token
    ensures t.exchanges[p].answer.Replaced? ==>
              step == Finish(p, t.exchanges[p].answer.token) && s.exchanges[p].Holding?
    ensures t.exchanges[p].answer.Reused? ==> step == Revoke(p) && s.exchanges[p].Lost?
  {
    hide Purged, Consumed, WithoutFamily, StoreOrRefuse;
  }

  /** The step that gave an exchange its answer. */
  lemma {:induction false} AnswerStep(states: seq<State>, steps: seq<Step>, allowed: set<string>, n: nat, p: nat)
    returns (i: nat)
    requires Run(states, steps) && states[0] == Initial(allowed) && n < |states|
    requires p in states[n].exchanges && states[n].exchanges[p].Answered?
    ensures i < n && p in states[i + 1].exchanges && states[i + 1].exchanges[p] == states[n].exchanges[p]
    ensures p in states[i].exchanges && states[i].exchanges[p].token == states[n].exchanges[p].token
    ensures states[n].exchanges[p].answer.Replaced? ==>
              steps[i] == Finish(p, states[n].exchanges[p].answer.token) && states[i].exchanges[p].Holding?
    ensures states[n].exchanges[p].answer.Reused? ==> steps[i] == Revoke(p) && states[i].exchanges[p].Lost?
  {
    hide Next;
    if p in states[n - 1].exchanges && states[n - 1].exchanges[p] == states[n].exchanges[p] {
      i := AnswerStep(states, steps, allowed, n - 1, p);
    } else {
      i := n - 1;
      AnsweredBy(states[i], steps[i], states[n], p);
    }
  }

  /** No two exchanges of one token are answered with a replacement. */
  lemma OneExchangeReplaces(states: seq<State>, steps: seq<Step>, allowed: set<string>, n: nat, p: nat, q: nat)
    requires Run(states, steps) && states[0] == Initial(allowed) && n < |states| && p != q
    requires p in states[n].exchanges && states[n].exchanges[p].Answered? && states[n].exchanges[p].answer.Replaced?
    requires q in states[n].exchanges && states[n].exchanges[q].Answered? && states[n].exchanges[q].answer.Replaced?
    ensures states[n].exchanges[p].token != states[n].exchanges[q].token
  {
    hide Next;
    var i := AnswerStep(states, steps, allowed, n, p);
    var j := AnswerStep(states, steps, allowed, n, q);
    var token := states[n].exchanges[p].token;
    assert Replaces(states, steps, i, token);
    if i < j {
      ReplacedAtMostOnce(states, steps, allowed, i, j, token);
    } else {
      var other := states[n].exchanges[q].token;
      assert Replaces(states, steps, j, other);
      ReplacedAtMostOnce(states, steps, allowed, j, i, other);
    }
  }

  /** Where one exchange replaced a token and another was answered as its reuse, the replacement is gone. */
  lemma ReuseEndsTheReplacement(states: seq<State>, steps: seq<Step>, allowed: set<string>, n: nat, p: nat, q: nat)
    requires Run(states, steps) && states[0] == Initial(allowed) && n < |states|
    requires p in states[n].exchanges && states[n].exchanges[p].Answered? && states[n].exchanges[p].answer.Replaced?
    requires q in states[n].exchanges && states[n].exchanges[q].Answered? && states[n].exchanges[q].answer.Reused?
    requires states[n].exchanges[p].token == states[n].exchanges[q].token
    ensures states[n].exchanges[p].answer.token !in states[n].tokens
  {
    hide Next, Inv;
    var i := AnswerStep(states, steps, allowed, n, p);
    var k := AnswerStep(states, steps, allowed, n, q);
    var token := states[n].exchanges[p].token;
    assert Replaces(states, steps, i, token);
    ReplacedBeforeRevoked(states, steps, allowed, i, k, token);
    ReplayRevokesTheWinner(states, steps, allowed, i, k, n, token);
  }

  /** A token is replaced before its family is revoked for it, never after. */
  lemma ReplacedBeforeRevoked(states: seq<State>, steps: seq<Step>, allowed: set<string>, i: nat, k: nat,
                              token: StoredKey)
    requires Run(states, steps) && states[0] == Initial(allowed) && i < |steps| && k < |steps|
             && Replaces(states, steps, i, token)
    requires steps[k].Revoke? && steps[k].p in states[k].exchanges
    requires states[k].exchanges[steps[k].p].Lost? && states[k].exchanges[steps[k].p].token == token
    ensures i < k
  {
    LoserSharesTheFamily(states, steps, allowed, i, k, steps[k].p, token);
    assert Next(states[k], steps[k], states[k + 1]);
    hide Inv, Next;
    if k < i {
      RevokedFamilyAnswersNone(states, steps, allowed, k + 1, i, token);
    }
  }

  /** Once a family is revoked no token of it is answered with a replacement. */
  lemma RevokedFamilyAnswersNone(states: seq<State>, steps: seq<Step>, allowed: set<string>, i: nat, j: nat,
                                 token: StoredKey)
    requires Run(states, steps) && states[0] == Initial(allowed) && i <= j < |steps|
             && Replaces(states, steps, j, token)
    ensures states[j].exchanges[steps[j].p].grant.values.family !in states[i].dead
  {
    hide Next, Inv;
    var family := states[j].exchanges[steps[j].p].grant.values.family;
    if family in states[i].dead {
      RevokedFamilyStaysDead(states, steps, allowed, i, j, family);
    }
    ReachableInv(states, steps, allowed, j);
    HolderHasTheLiveRow(states[j], steps[j].p);
  }

  // --- The deadline ---------------------------------------------------------------

  /**
   * The deadline is checked when the token is consumed, not again when the access token is minted:
   * a rotation mints within thirty days of the sign-in exactly when the clock has not passed them
   * as it finishes.
   */
  lemma MintedInTimeIff(states: seq<State>, steps: seq<Step>, allowed: set<string>, j: nat, token: StoredKey)
    requires Run(states, steps) && states[0] == Initial(allowed) && j < |steps| && Replaces(states, steps, j, token)
    ensures var mint := states[j + 1].minted[|states[j].minted|];
            && |states[j + 1].minted| == |states[j].minted| + 1 && mint.family in states[j].families
            && (mint.mintedAt < states[j].families[mint.family].begunAt + REFRESH_TTL
                <==> states[j].clock < states[j].exchanges[steps[j].p].grant.expiresAt)
  {
    ReachableInv(states, steps, allowed, j);
    ReplacementRecorded(states, steps, j, token);
    hide Next;
    HolderHasTheLiveRow(states[j], steps[j].p);
  }

  /** One that does not: consumed in the family's last second, and minted two seconds later. */
  lemma MintCanComeLate() returns (states: seq<State>, steps: seq<Step>)
    ensures Run(states, steps) && states[0] == Initial({"owner"})
    ensures var t := states[|states| - 1];
            |t.minted| == 2 && t.minted[1].family in t.families
                && t.minted[1].mintedAt > t.families[t.minted[1].family].deadline
  {
    var first, second, begun := Digest("first"), Digest("second"), Family("subject", "owner", "client", "scope", 0);
    states, steps := HeldInTheLastSecond(first, begun);
    var held := states[|states| - 1];
    var late := held.(clock := REFRESH_TTL + 1);
    var grant := begun.Token(0);
    var t := AfterFinish(late, 0, first, grant, REFRESH_TTL - 1, second);
    LateFinish(late, first, begun, second);
    hide AfterBegin, AfterPeek, AfterConsume, AfterRevoke, AfterFinish, Purged, StoreOrRefuse;
    assert Next(held, Tick(2), late);
    assert Next(late, Finish(0, second), t);
    hide Next, Run;
    states, steps := OneMore(Next, states, steps, Tick(2), late);
    states, steps := OneMore(Next, states, steps, Finish(0, second), t);
  }

  lemma HeldInTheLastSecond(token: StoredKey, begun: Family) returns (states: seq<State>, steps: seq<Step>)
    requires begun.begunAt == 0 && begun.email == "owner" && begun.client != ""
    ensures Run(states, steps) && states[0] == Initial({"owner"})
    ensures states[|states| - 1]
            == OneFamily(token, begun).(clock := REFRESH_TTL - 1,
                                        exchanges := map[0 := Holding(token, begun.Token(0), REFRESH_TTL - 1)])
  {
    hide Next, OneFamily, Initial;
    var s0, s1 := Initial({"owner"}), OneFamily(token, begun);
    var s2 := s1.(clock := REFRESH_TTL - 1);
    var s3 := s2.(exchanges := map[0 := Started(token, begun.client)]);
    var s4 := s2.(exchanges := map[0 := Peeked(token, 0)]);
    var s5 := s2.(exchanges := map[0 := Holding(token, begun.Token(0), REFRESH_TTL - 1)]);
    OneFamilyBegins(token, begun);
    LastSecondPeek(token, begun);
    LastSecondConsume(token, begun);
    states := [s0, s1, s2, s3, s4, s5];
    steps := [Begin(0, begun, token), Tick(REFRESH_TTL - 1), Start(0, token, begun.client), Peek(0), Consume(0)];
  }

  lemma LastSecondPeek(token: StoredKey, begun: Family)
    requires begun.begunAt == 0 && begun.client != ""
    ensures var s1, s2 := OneFamily(token, begun), OneFamily(token, begun).(clock := REFRESH_TTL - 1);
            var s3 := s2.(exchanges := map[0 := Started(token, begun.client)]);
            && Next(s1, Tick(REFRESH_TTL - 1), s2)
            && Next(s2, Start(0, token, begun.client), s3)
            && Next(s3, Peek(0), s2.(exchanges := map[0 := Peeked(token, 0)]))
  {
    var tokens := map[token := begun.Token(0)];
    assert Purged(tokens, REFRESH_TTL - 1) == tokens;
    hide Purged, AfterBegin, AfterConsume, AfterRevoke, AfterFinish;
  }

  lemma LastSecondConsume(token: StoredKey, begun: Family)
    requires begun.begunAt == 0
    ensures var s2 := OneFamily(token, begun).(clock := REFRESH_TTL - 1);
            Next(s2.(exchanges := map[0 := Peeked(token, 0)]), Consume(0),
                 s2.(exchanges := map[0 := Holding(token, begun.Token(0), REFRESH_TTL - 1)]))
  {
    var tokens := map[token := begun.Token(0)];
    assert Purged(tokens, REFRESH_TTL - 1) == tokens;
    hide Purged, AfterBegin, AfterPeek, AfterRevoke, AfterFinish;
  }

  lemma OneFamilyBegins(token: StoredKey, begun: Family)
    requires begun.begunAt == 0 && begun.email == "owner"
    ensures Next(Initial({"owner"}), Begin(0, begun, token), OneFamily(token, begun))
  {
    assert Purged<Refresh>(map[], 0) == map[];
  }

  function OneFamily(token: StoredKey, begun: Family): State {
    State(0, map[token := begun.Token(0)], {"owner"}, map[], map[0 := begun], {}, {token}, [],
          [Mint(0, begun.subject, begun.email, 0, 0)])
  }

  lemma LateFinish(s: State, token: StoredKey, begun: Family, replacement: StoredKey)
    requires begun.email in s.allowed && |s.tokens| <= 1 && |s.minted| == 1
    ensures var t := AfterFinish(s, 0, token, begun.Token(0), REFRESH_TTL - 1, replacement);
            && t.families == s.families
            && t.minted == s.minted + [Mint(0, begun.subject, begun.email, REFRESH_TTL - 1, s.clock)]
  {
    var view := View(s, token, begun.Token(0), REFRESH_TTL - 1);
    var left := Purged(view, s.clock).Keys - {replacement};
    assert left <= s.tokens.Keys + {token};
    SubsetCardinality(left, s.tokens.Keys + {token});
    assert |s.tokens.Keys| == |s.tokens|;
  }

  lemma DeadHaveNoRows(s: State)
    requires Inv(s)
    ensures forall k :: k in s.tokens ==> s.tokens[k].values.family !in s.dead
  {
    hide OneLivePerFamily, MintsHonest, LocksHeld, HeldInTime, ReadersKnown, RotatedOnce, RowOfFamily;
  }
}
