# Reli: a verified model of its stores, its graph and its limiter

Reli is a personal assistant's memory: Things, typed relationships between them and an append-only
journal, served to a person's browser and, over OAuth, to Claude. This project models the three
parts of its backend whose correctness spans many calls, and proves what each promises over every
run.

**The OAuth stores** (`backend/oauth_state.py`, `backend/mcp_oauth.py`, `backend/auth.py`).
`OauthState` holds the bounded stores with their purge, eviction and refusal, as a class that
mutates rows and commits or rolls back. `TokenEndpoint` is the token endpoint over three such
stores. `Rotation` is the same endpoint as a protocol: any number of refresh exchanges interleave
one database statement at a time, a consume holding its row's lock until it commits together with
the replacement, and any of them may die on the way; `RotationRuns` says what its runs promise.
`SignIn` follows a sign-in from the authorize request to the refresh family; `SignInEndpoint` is
each of the requests on that way. `Registrations` is the life of a client registration, `Logout` the
list of ended sessions. `TokenEndpointProofs` and `SignInEndpointProofs` show each request, from
wherever the protocols stand, to be a run of them. `Connector` and `RegistrationRuns` put the
requests together: any history of them, from empty stores, is a run of all three protocols from
their beginnings, over the same rows and the same families. `TokenAnswers` and `SignInAnswers` say
of each request exactly when it is answered how and what that leaves, in terms of the rows alone;
`ConnectorAnswers` what follows over any history, from a stored token back to the registration of
its client.

**The journalled graph** (`backend/service.py`, `backend/queries.py`, `backend/db_models.py`).
`Service` is the only write path, a session whose every public call commits rows and journal entries
together or leaves nothing; `ServiceAnswers` says exactly when each call is answered how and what it
leaves, `ServiceRuns` what any run of the calls keeps. `Writers` is the same calls in any number of
concurrent sessions, one write at a time, with the row locks, the `ChildOf` lock, the unique index
and the journal's sequence, and with a parameter for what the database layer makes of a delete that
matches no row. `WritersProofs` says what every interleaving keeps, `WriterNumbers` what the numbers
of the journal tell, `ReadByNumber` that the journal read in their order replays to the tables;
`WriterRuns` compares an interleaving with the calls made one after another, and `WriterExamples` is
what goes wrong without the row lock, or in spite of all locks. `Hierarchy` is the check that keeps
`ChildOf` acyclic, with the lock that makes it hold between concurrent writers. `Journal` replays
and pages the journal. `Related` and `Tree` are the two graph views, `UserModel` and `Evidence` the
preferences and the evidence behind them, `Backfill` and `Collapse` the two one-off passes that run
inside a migration.

**The token-bucket limiter** (`backend/rate_limit.py`). `RateLimit` is the bounded dictionary of
buckets; `RateLimitBounds` compares it with an unbounded one and bounds what it admits.

`Prelude`, `Runs`, `Text`, `Paths`, `Ordering`, `Listing` and `Graph` are what they share: sequences
without repetition, runs of a step relation, white space, paths, ORDER BY, the orders the queries
use, and the tables.

## How to read it

Code that changes state is a class or a method, and its `ensures` equates the new state and the
answer with a function of the old state (`AfterRelate`, `Stored`, `Taken`, ...). The lemmas are
about those functions, so a change to a method breaks its own contract and a change to a function
breaks the lemmas. The `...Answers` lemmas state the exact condition of each answer, and what it
leaves, over the tables found, in their own words for a live row, room or a bound. A protocol is a
`Next` predicate over states and steps; a `Run` is any sequence of such steps, and the theorems are
about every state of every run. A clock reading is a parameter of the call that makes it, and of
each step in the protocols; generated ids and tokens are parameters constrained to be fresh; SHA-256
is the injective constructor `Digest`, and `S256` in `SignIn`.

Five places where the code says less, or does less, than one might read into it:

- The deadline of a refresh family is checked when a token is consumed, not again when the access
  token is minted, so a rotation that starts in the last second can mint after the thirty days.
  `MintCanComeLate` is such a run, `MintedInTimeIff` the exact condition, and
  `MintsCarryTheSignIn` bounds the instant of redemption.
- `child_count` counts children whose tags the level leaves out, so it promises more rows than
  expanding returns exactly when an active child carries an excluded tag: `CountIsExpansionIff`.
  `CountCanExceedExpansion` is a run of the service that gets there.
- The tags of a piece of evidence, and of the preference, are read without a lock, so they can be
  rewritten before the edge commits: `AnEvidenceCheckIsOvertaken` is a run in which they are.
- So is an edge that `unrelate` removes. Where the database layer only warns of a delete that matched
  no row, a second session that read the same edge is answered as done and journals an edge already
  gone: `AnEdgeIsRemovedTwice`. Every entry of the journal is honest if and only if no unrelate was
  committed whose edge was gone, and where the layer refuses such a delete none is:
  `HonestThroughoutIff`. A commit leaves what its call made alone at that instant would have left
  exactly unless one of these two happened: `CommitIsTheCallIff`.
- A journal entry gets its number before its transaction commits, so paging by the last number seen
  can pass over an entry that is not there yet, and never come back to it. What is missed is
  exactly what was in flight under a number no higher as the page was read: `MissedIff`, with
  `AnEntryIsMissed` such a run. Over a journal that stands still, `ReadAll` misses nothing.

## Model

| member | source | states |
|---|---|---|
| OauthState.Store.CleanupAndStore | backend/oauth_state.py:217-252 | refuses exactly when the store does not evict and is full of other unexpired rows, and then returns to what was committed; otherwise the unexpired rows, less exactly as many of the nearest to expiry as the cap needs and never the one replaced, plus the new row, all committed |
| OauthState.Store.EvictNearest | backend/oauth_state.py:239-245 | removes exactly the number asked for, every removed row expiring no later than every other one kept, and never the row about to be replaced |
| OauthState.Store.NearestExpiry | backend/oauth_state.py:239-245 | a row other than the key's that expires no later than any such row |
| OauthState.Store.CleanupAndGet | backend/oauth_state.py:255-261 | expired rows are gone and committed, and the answer is what is left under the key |
| OauthState.Store.CleanupAndPop | backend/oauth_state.py:264-283 | takes the row and removes it together, only while it has not expired; every other unexpired row stays |
| OauthState.Store.ExtendExpiry | backend/oauth_state.py:286-300 | a row only ever moves to a later expiry, a missing key changes nothing |
| OauthState.ConsumeRefreshToken | backend/oauth_state.py:303-343 | takes only a live unconsumed token, marks it consumed and drops its identity in one step, hands back the row as it stood before, and commits nothing |
| OauthState.RevokeRefreshTokenFamily | backend/oauth_state.py:346-353 | every row of the family goes, no other does, and the answer is how many went |
| OauthState.StoredKeepsCap | backend/oauth_state.py:217-252 | whatever was there before, a successful store leaves no more rows than the cap |
| OauthState.StoredEvictsLeast | backend/oauth_state.py:217-252 | below the cap a store keeps every other unexpired row unchanged, at it exactly as many as leave the table full with the new one, none evicted that expires after another kept |
| OauthState.OneMoreGone | backend/oauth_state.py:239-245 | taking the nearest expiry one row at a time takes the nearest rows: none that goes expires after one that stays |
| Logout.RevocationList.Revoke | backend/auth.py:198-207 | lists the token's `jti` until its own `exp`, or refuses at the cap leaving the list as committed |
| Logout.RevocationList.EndSession | backend/auth.py:305-324 | lists the token of a cookie that still decodes, refuses exactly at capacity, and a cookie that does not decode changes nothing |
| Logout.RevocationList.WebSession | backend/auth.py:214-237 | the session a cookie earns, refusals in the code's order, a listed token refused; the list is purged and committed exactly when an allowed account's token decoded |
| Logout.ListedUntilExpiry | backend/oauth_state.py:202-252 | through any later accesses under a non-decreasing clock a listed token stays listed until its `exp`, and its row keeps that expiry |
| Logout.LoggedOutStaysOut | backend/auth.py:192-237 | after logout, over every run of accesses, the token is admitted exactly if the decode reads the clock before `exp` and the store read reads it at or after; never when one reading serves the request |
| Logout.SessionAnswers | backend/auth.py:214-237 | exactly when a cookie is answered how: configured, signed here, decoded before its `exp`, allowed, and its `jti` not listed unexpired; the first that fails is the refusal |
| Logout.LogoutLists | backend/auth.py:198-207 | a logout lists the token until its `exp` if and only if fewer than ten thousand other unexpired ones are listed, and no other row but expired ones changes |
| Logout.AccessLeaves | backend/auth.py:192-237 | a token that no longer decodes touches nothing, a logout with room ends its token at every instant before `exp`, and a check only deletes what has expired |
| Logout.NeverEndedStaysIn | backend/auth.py:192-237 | over every run of accesses, a token none of them ended is admitted exactly while it decodes and its account is allowed |
| Registrations.RegisterKeepsInv | backend/mcp_oauth.py:297-311 | a registration that evicts to make room leaves every surviving registration its promised life, within the cap |
| Registrations.IssueKeepsInv | backend/mcp_oauth.py:531-548 | storing a token and extending its client keeps every registration alive at least as long as each of its tokens |
| Registrations.RegistrationsLiveAsPromised | backend/mcp_oauth.py:64-73 | between requests of every run a stored registration expires an hour after it was made if no token was ever stored for it, and otherwise no earlier than every refresh row it holds; never more than the cap |
| Registrations.EvictionOrder | backend/oauth_state.py:217-252 | a registration evicted before it expired expires no later than any that stays |
| Registrations.UsedEvictedLast | backend/mcp_oauth.py:297-311 | a used registration with over an hour left is evicted only when no unused one survives but the newcomer |
| Rotation.StepKeepsInv | backend/mcp_oauth.py:587-616 | whatever statement any exchange takes next, a death of its transaction included, keeps one live row per family, rows as their sign-in fixed them, locks on exactly the rows held, and no token rotated twice |
| Rotation.ReachableInv | backend/mcp_oauth.py:587-616 | that invariant in every committed state of every interleaving |
| Rotation.HolderHasTheLiveRow | backend/oauth_state.py:303-343 | an exchange that consumed but has not committed holds its family's only live row, unexpired when taken and never rotated before |
| RotationRuns.RowsAreSafe | backend/oauth_state.py:303-343 | every row of a family shares client, scope and deadline, carries its identity exactly until consumed, and at most one row of a family is unconsumed |
| RotationRuns.MintsCarryTheSignIn | backend/mcp_oauth.py:501-559 | every access token ever minted names the account whose code exchange began its family, for a grant redeemed within thirty days of it |
| RotationRuns.MintedInTimeIff | backend/mcp_oauth.py:608-616 | a rotation mints within thirty days of the sign-in exactly when the clock has not passed them as it finishes |
| RotationRuns.MintCanComeLate | backend/mcp_oauth.py:608-616 | a run that consumes in the family's last second and mints after its deadline |
| RotationRuns.FamiliesAreFixed | backend/mcp_oauth.py:608-616 | client, scope, account and deadline of a family never change along any run |
| RotationRuns.ReplacedAtMostOnce | backend/oauth_state.py:303-343 | over every interleaving a refresh token is answered with a replacement at most once ever |
| RotationRuns.CapacityRefusalChangesNothing | backend/mcp_oauth.py:531-547 | an exchange refused at capacity leaves every row as it was and mints nothing; its own token is unconsumed, and redeemable exactly until its deadline |
| RotationRuns.ReplacedTokenIsLost | backend/mcp_oauth.py:599-607 | whoever consumes a token already replaced, by replay or by losing the race, finds nothing to take |
| RotationRuns.RowFamilyIsFixed | backend/oauth_state.py:303-343 | once a token is stored no later state of the run has its row in another family |
| RotationRuns.RowsLast | backend/oauth_state.py:209-210 | over every interleaving a stored refresh row, consumed or not, stays with its family and deadline until the clock reaches that deadline, unless its family was revoked |
| RotationRuns.LoserSharesTheFamily | backend/mcp_oauth.py:590-607 | whoever read a token that is replaced, before or after, carries the family of the exchange that replaced it |
| RotationRuns.ReplayIsRecognised | backend/mcp_oauth.py:590-607 | a replaced token its own client presents before the deadline is read with its family, never taken for an unknown one, unless that family was revoked already |
| RotationRuns.ReplayRevokesTheWinner | backend/mcp_oauth.py:599-607 | in any interleaving, once a token was replaced, the revocation by whoever lost it empties the winner's own family, the replacement included, and no later state has a row of it or another mint for it |
| RotationRuns.ReplacedBeforeRevoked | backend/mcp_oauth.py:599-607 | that order is the only one: a token whose reuse was revoked is never replaced after |
| RotationRuns.OneExchangeReplaces | backend/mcp_oauth.py:587-616 | of all exchanges of one token at most one is ever answered with a replacement |
| RotationRuns.ReuseEndsTheReplacement | backend/mcp_oauth.py:599-607 | where one exchange of a token was answered with a replacement and another as its reuse, the replacement is gone |
| RotationRuns.RevokedFamilyStaysDead | backend/mcp_oauth.py:599-607 | from then on no run stores a row of the family again or mints for it |
| RotationRuns.RevokedFamilyAnswersNone | backend/mcp_oauth.py:599-607 | nor answers any of its tokens with a replacement |
| TokenEndpoint.Server.ValidateClientSecret | backend/mcp_oauth.py:490-498 | accepts a live registration that is public and presented no secret, or whose secret's digest matches; only expired registrations go |
| TokenEndpoint.Server.IssueTokenResponse | backend/mcp_oauth.py:501-559 | an account no longer allowed loses its family; at the cap the session returns to what was committed; otherwise the replacement is stored with its deadline and the client extended to it |
| TokenEndpoint.Server.ExchangeRefreshToken | backend/mcp_oauth.py:562-616 | the whole refresh exchange, each early exit leaving exactly what was committed before it |
| TokenEndpoint.Server.ExchangeAuthorizationCode | backend/mcp_oauth.py:619-643 | the whole code exchange: client authenticated before the code is popped, verifier and redirect URI checked after |
| TokenEndpointProofs.WrongSecretKeepsTheGrant | backend/mcp_oauth.py:562-584 | a wrong client secret consumes nothing: every unexpired token and code is left, the one presented among them |
| TokenEndpointProofs.CapacityLeavesTokens | backend/mcp_oauth.py:531-547 | a refresh refused at capacity leaves the presented token unconsumed |
| TokenEndpointProofs.RotationReplaces | backend/mcp_oauth.py:587-616 | a rotation that succeeds leaves the old token consumed without identity and the new one live, same family, deadline and account |
| TokenEndpointProofs.ReplayRevokesTheReplacement | backend/mcp_oauth.py:599-607 | presenting the old token again is answered as reuse and leaves no row of the family |
| TokenEndpointProofs.CodeIsSingleUse | backend/mcp_oauth.py:619-643 | an exchange that got past the verifier leaves no code to redeem, and had presented the code's own client and redirect URI and a verifier whose S256 challenge is the code's |
| TokenAnswers.RefreshRefusals | backend/mcp_oauth.py:490-584 | a refresh is an invalid grant exactly if the token is unknown, expired or another client's, and an invalid client exactly if it is not and the client is not stored unexpired, or has a secret and presents none or another |
| TokenAnswers.RefreshOutcomes | backend/mcp_oauth.py:587-616 | past that: reuse exactly if the token was consumed or runs out on the way, else refused exactly for an account not allowed, else exactly for want of room, else replaced |
| TokenAnswers.RefreshLeaves | backend/mcp_oauth.py:501-616 | row by row what each answer leaves: refusals only expired rows gone, reuse and an account not allowed none of the family, a replacement the old token consumed without identity, its copy, and the registration moved to its deadline |
| TokenAnswers.CodeRefusals | backend/mcp_oauth.py:490-633 | a code exchange is an invalid client exactly as a refresh is, and an invalid grant exactly if the code is unknown, expired, another client's, or, its client known, ran out, came with another redirect URI than it was asked for, or for S256 with no verifier or another challenge's |
| TokenAnswers.CodeOutcomes | backend/mcp_oauth.py:501-643 | past that: refused exactly for an account not allowed, else exactly for want of room, else issued |
| TokenAnswers.CodeLeaves | backend/mcp_oauth.py:501-643 | row by row what each answer leaves: the code spent exactly if its client was known, and a token issued its account's, for thirty days |
| TokenEndpointProofs.RotationIsARun | backend/mcp_oauth.py:587-616 | a request that finds no transaction open is a run of the rotation protocol from wherever it stands: same rows, same answer, the last clock reading, nothing issued but its token, and no transaction left open |
| SignIn.StepKeepsInv | backend/mcp_oauth.py:365-428 | every step of any number of sign-ins keeps each session, code and family tied to one authorize request |
| SignIn.TakeLiveSession | backend/auth.py:431-445 | a session popped goes to one callback and is gone |
| SignIn.DeliverKeepsInv | backend/auth.py:389-411 | the code stored carries the client, redirect URI, scope and challenge of the session popped |
| SignIn.TakeLiveCode | backend/mcp_oauth.py:619-643 | a code popped goes to one exchange and is gone |
| SignIn.FamilyTracesToOneRequest | backend/mcp_oauth.py:365-428 | every refresh family goes back to exactly one authorize request and no other family to the same, through one session popped once and one code popped once; its exchanger presented that request's redirect URI and a verifier whose S256 challenge is that request's |
| SignInEndpoint.Server.Register | backend/mcp_oauth.py:273-313 | refuses an auth method the token endpoint lacks and an unsafe redirect URI, storing nothing; otherwise the registration is stored for an hour, evicting the nearest to expiry when full |
| SignInEndpoint.Server.StartWebSignIn | backend/auth.py:265-290 | a configured deploy remembers a web sign-in for ten minutes, evicting when full |
| SignInEndpoint.Server.Authorize | backend/mcp_oauth.py:366-427 | every refusal in the code's order, none of which stores anything; an accepted request is remembered unchanged for ten minutes |
| SignInEndpoint.Server.FinishMcpSignIn | backend/auth.py:362-411 | the code of an allowed account is stored with the flow's own request, or the client hears why not |
| SignInEndpoint.Server.GoogleCallback | backend/auth.py:415-447 | the whole callback: the web flow first, finished without touching the rest; then the MCP session, popped before the browser is checked |
| SignInEndpointProofs.DeliveredIff | backend/auth.py:389-445 | a code is delivered exactly when the state names a live MCP session, the browser approved it, the account is allowed and the code store has room |
| SignInEndpointProofs.SessionStartedIff | backend/auth.py:327-447 | a web session starts exactly when the state names a live web sign-in, Google signed the person in and the account is allowed; it carries exactly the subject and email Google gave, the state is spent, and the MCP stores are untouched |
| SignInEndpointProofs.StateIsSingleUse | backend/auth.py:431-437 | after any callback, whatever came of it, the same state is answered as unknown and stores nothing |
| SignInAnswers.WebAnswers | backend/auth.py:327-432 | exactly when a callback ends a web sign-in and how: as the account Google named if allowed, else at the sign-in view with what was wrong |
| SignInAnswers.McpAnswers | backend/auth.py:362-447 | exactly when a callback is answered with each of the other replies; a code or a denial goes to the redirect URI of the request in the session popped, with that request's own state |
| SignInAnswers.CallbackLeaves | backend/auth.py:389-445 | row by row what a callback leaves: its state spent where it was looked for, and a code delivered stored for a minute with the request of the session and the account Google named |
| SignInAnswers.DeliveredCodeIsRedeemable | backend/mcp_oauth.py:619-643 | the code in the reply, presented with the redirect URI in the reply within its minute by the client that asked, with its secret and verifier, gives a token for the account Google named, with the request's client and scope, or is refused exactly for want of room; and is spent |
| SignInAnswers.RegisterAnswers | backend/mcp_oauth.py:291-295 | a registration is accepted exactly with one of the two auth methods and safe redirect URIs only |
| SignInAnswers.AuthorizeAnswers | backend/mcp_oauth.py:382-413 | an authorize request is accepted exactly if configured, asking for a code with a non-empty S256 challenge, of a client stored unexpired with that redirect URI, which is safe; otherwise the first that fails is the answer |
| SignInEndpointProofs.AuthorizeIsARun | backend/mcp_oauth.py:366-427 | an authorize request not refused is the sign-in protocol's authorize step, over the clients then live |
| SignInEndpointProofs.RedemptionIsARun | backend/mcp_oauth.py:619-643 | a code exchange is a run of the sign-in protocol: asked, admitted, popped and verified as far as it got, beginning its family exactly when it is answered with tokens |
| TokenEndpointProofs.RedemptionBegins | backend/mcp_oauth.py:619-643 | a code exchange answered with tokens begins the rotation protocol's family for the account, client and scope of its code; any other leaves its rows alone |
| SignInEndpointProofs.CallbackIsARun | backend/auth.py:389-445 | a callback is a run of the sign-in protocol from wherever it stands: same sessions and codes, the last clock reading, and at most its code made |
| Connector.HistoryIsARun | backend/mcp_oauth.py:365-643 | any history of whole requests from empty stores is a run of the sign-in protocol and a run of the rotation protocol from their beginnings: same rows, same families, and every refresh answered as its exchange ended |
| Connector.ReplacedAtMostOnce | backend/oauth_state.py:303-343 | over any history a refresh token is answered with a replacement at most once |
| Connector.ReuseRevokes | backend/mcp_oauth.py:599-607 | over any history, once a replaced token was answered as reuse, what replaced it is stored at no later time |
| Connector.EveryTokenHasASignIn | backend/mcp_oauth.py:365-643 | over any history every refresh row carries the client and scope of one authorize request and, unconsumed, the account its code named; its family's exchanger presented that request's redirect URI and verifier; no other family goes back to it |
| ConnectorAnswers.EveryClientWasRegistered | backend/mcp_oauth.py:273-313 | over any history a stored registration is what one register request gave, with a known auth method and safe redirect URIs, and has its hour |
| ConnectorAnswers.ClientsAreAsRegistered | backend/mcp_oauth.py:297-313 | over any history a registration never changes its secret, method or redirect URIs |
| ConnectorAnswers.SecretDecides | backend/mcp_oauth.py:490-498 | over any history whoever presents a grant of its client, at either exchange, is an invalid client exactly if the registration is not stored unexpired, or it was made with a secret and another or none is presented: never with the right one |
| ConnectorAnswers.EverySessionWasAsked | backend/mcp_oauth.py:366-427 | over any history every session waits ten minutes for what one accepted authorize request asked, of a client stored then with that safe redirect URI |
| ConnectorAnswers.EveryWebSignInWasStarted | backend/auth.py:265-290 | over any history every web sign-in waits ten minutes for what a configured deploy started |
| ConnectorAnswers.EveryCodeWasDelivered | backend/auth.py:389-445 | over any history every code was made by one callback, in the browser that approved, for an allowed account Google named and exactly what one authorize request asked; it lasts a minute |
| ConnectorAnswers.SentWhereAsked | backend/auth.py:362-411 | over any history a browser is sent on, with a code or as denied, only to the redirect URI its client asked for and had registered, with that client's own state |
| ConnectorAnswers.EveryTokenGoesBack | backend/mcp_oauth.py:365-643 | over any history every refresh row goes back, through its replacements, to a code exchange with the right secret, redirect URI and verifier, the callback that made that code, and the authorize request it was made for, and carries their account, client, scope and thirty days |
| ConnectorAnswers.StoresStayCapped | backend/oauth_state.py:217-252 | over any history at most a hundred registrations and ten thousand of every other row are stored |
| RegistrationRuns.RegisterIsNext | backend/mcp_oauth.py:297-311 | what the register endpoint stores is the registrations' register event |
| RegistrationRuns.IssueIsAnEvent | backend/mcp_oauth.py:501-559 | what an issuing leaves is the issue event, or the family forgotten |
| RegistrationRuns.HistoryIsARun | backend/mcp_oauth.py:273-643 | any history of whole requests is a run of the registrations' events from the beginning, at the same rows |
| RegistrationRuns.RegistrationsOutliveTheirTokens | backend/mcp_oauth.py:64-73 | over any history a registration still stored outlives every refresh row it holds, within the cap |
| Paths.AddingKeepsAcyclicIff | backend/service.py:488-496 | adding an edge to an acyclic graph keeps it acyclic exactly when its target does not already reach its source |
| Paths.FewerEdgesAcyclic | backend/service.py:602-616 | removing edges never makes a cycle |
| Hierarchy.ReachesByWalk | backend/service.py:442-457 | the de-duplicating walk ends on every finite graph, cyclic ones included, and answers whether a parent-to-child path leads from start to goal |
| Hierarchy.StepKeepsInv | backend/service.py:459-463 | any statement of any concurrent writer keeps the graph acyclic and every passed check still true until its commit |
| Hierarchy.AlwaysAcyclic | backend/service.py:484-496 | `ChildOf` is acyclic in every committed state of every interleaving of relates and unrelates |
| Hierarchy.WithoutTheLockACycle | backend/service.py:459-463 | without the lock two writers that each pass the check close a cycle |
| Service.Session.Journalled | backend/service.py:165-186 | appends exactly one entry under the next number |
| Service.Session.InsertThing | backend/service.py:205-251 | a row and its create entry, or an integrity error and nothing |
| Service.Session.CreateThing | backend/service.py:259-301 | a capture outside the internal tags is marked new and dated tomorrow unless dated; committed with its entry, or refused for its size, also when the new tag is the one too many, leaving nothing |
| Service.UpdatesCompose | backend/service.py:304-374 | two updates in turn leave the tables one update with both would, the later winning where both give a field, and that one is accepted if they were |
| Service.StaleIff | backend/service.py:327-344 | an update expecting what was read before another one is refused as stale, leaving nothing, exactly unless the other left the same instant behind |
| Service.Session.UpdateThing | backend/service.py:304-374 | refuses an oversized field, a missing Thing, an expected time without a zone, a stale read and a hidden heartbeat, in that order and without a trace; otherwise the new state with before and after in one entry |
| Service.Session.CheckEdge | backend/service.py:471-507 | refuses exactly an oversized context, a self-loop, a `ChildOf` edge whose target already reaches its source, and evidence from one of Reli's own records |
| Service.Session.InsertRelationship | backend/service.py:510-546 | the edge and its entry, or the refusal and nothing |
| Service.Session.Relate | backend/service.py:549-599 | a repeated evidence edge is reported as a duplicate of the edge that stands, named, and rolled back |
| Service.Session.DeleteRelationship | backend/service.py:602-616 | the edge goes and its entry keeps it as it was |
| Service.Session.Unrelate | backend/service.py:619-626 | a missing edge is refused, an existing one goes with its entry |
| Service.Session.GetOrCreateUserAnchor | backend/service.py:674-706 | creates the anchor once, with its entry, and commits it on its own |
| Service.Session.CheckEvidence | backend/service.py:741-742 | the first missing or unfit piece of evidence decides the refusal |
| Service.Session.InsertEvidence | backend/service.py:760-767 | the evidence edges one after the other, ending at the first refused |
| Service.Session.InsertPreference | backend/service.py:746-769 | the preference, its anchor edge and all its evidence edges commit together, or the session returns to what was committed |
| Service.Session.RecordPreference | backend/service.py:709-771 | strips the scope, and refuses a blank or oversized one, an oversized title, no evidence, and missing or unfit evidence before anything is written |
| Service.Session.AddPreferenceEvidence | backend/service.py:782-825 | evidence already linked changes and journals nothing |
| Service.Session.RejectPreference | backend/service.py:828-845 | adds the tag once, through an ordinary journalled update |
| Service.RefusedEvidence | backend/service.py:760-767 | once one piece of evidence is refused the rest is not attempted and the refusal is the answer |
| ServiceAnswers.CreateAnswers | backend/service.py:259-301 | a Thing is created exactly if within bounds with the tag it gets, under an unused id; every field is stored as given, one of Reli's own records untouched, any other tagged new once and dated as given or else tomorrow; nothing else changes, and one entry tells it |
| ServiceAnswers.UpdateAnswers | backend/service.py:304-388 | exactly when an update is accepted, and which refusal otherwise: bounds, the Thing there, an expected instant with an offset, equal to the stored one, and no scheduled task archived or untagged; the fields given replace, the rest stay |
| ServiceAnswers.RelateAnswers | backend/service.py:471-599 | a relationship of any type is made exactly if its context is within bounds, its ends are two different Things that are there, a `ChildOf` edge closes no cycle, and evidence is fit and not yet attached; exactly which refusal otherwise, leaving nothing |
| ServiceAnswers.UnrelateAnswers | backend/service.py:602-626 | exactly that edge goes, if it is there, with one entry that holds it |
| ServiceAnswers.AddEvidenceAnswers | backend/service.py:782-825 | exactly when evidence is added, was there already, or is refused, and the one edge and entry it adds |
| ServiceAnswers.RejectAnswers | backend/service.py:828-845 | exactly when a preference is rejected, was already, or is refused, and the one tag it adds |
| ServiceAnswers.RefusalOfDistinct | backend/service.py:738-742 | naming evidence twice changes no refusal: the first missing or unfit id of the list given decides |
| ServiceAnswers.EvidenceAnswers | backend/service.py:760-767 | fit evidence is all attached, in order, one edge and one entry each, exactly if the ids of the edges are unused and each another |
| ServiceAnswers.RecordAnswers | backend/service.py:709-771 | exactly when a preference is recorded, and which refusal otherwise; what the two transactions then leave, row by row and entry by entry |
| Journal.WriteKeepsFaithful | backend/service.py:165-186 | one more mutation written with its entry keeps the journal replaying to the tables, with every earlier entry still honest |
| ServiceRuns.CallKeepsInv | backend/service.py:205-626 | every call, refused and rolled-back ones included, keeps the journal faithful, the foreign keys, no self-loop, acyclicity and evidence uniqueness |
| ServiceRuns.JournalReplaysToTables | backend/service.py:165-186 | after any run of calls, replaying the journal from nothing gives exactly the Things and relationships, each entry's before and after are its entity's state just before and after it, and the numbers increase |
| ServiceRuns.TablesStaySound | backend/db_models.py:205-226 | after any run every edge joins two different Things, the hierarchy is acyclic and no pair carries two evidence edges |
| ServiceRuns.TreeLosesNothing | backend/queries.py:334-381 | after any run the Things reached by opening the tree from its top level are exactly the active ones |
| ServiceRuns.CallKeepsThings | backend/service.py:377-388 | no call, the two passes included, removes a Thing, changes when it was made, clears its description or date, or archives or untags an active scheduled-task heartbeat |
| ServiceRuns.RunKeepsThings | backend/service.py:377-388 | so over any further run of calls what is there stays there, and a heartbeat stays one |
| WritersProofs.StepKeepsInv | backend/service.py:304-626 | whatever statement any of the concurrent sessions takes next, each session's flushed and locked writes stay possible over what is committed and out of each other's way, and an edge read to be removed is what was read or gone |
| WritersProofs.EveryInterleavingIsSound | backend/service.py:165-845 | in every committed state of every interleaving, deaths and rollbacks included, every edge joins two different Things, the hierarchy is acyclic, no pair carries two evidence edges, and the entries in the order of their commits replay to the tables, each honest exactly unless its delete matched no row |
| ReadByNumber.ReplaysByNumber | backend/queries.py:459-492 | in every committed state of every interleaving the journal read by its ids, which is not the order of commit, holds every entry once, replays to the tables, and tells each entity's state just before and after, exactly unless the delete it tells of matched no row |
| ReadByNumber.HonestThroughoutIff | backend/service.py:602-626 | the journal read by its ids is honest throughout if and only if no unrelate was committed whose edge was gone; none is where the database layer refuses a delete that matched no row |
| WriterExamples.AnEdgeIsRemovedTwice | backend/service.py:602-626 | a run of two unrelates of one edge, both answered as done, the second committing when the edge is gone |
| WriterNumbers.HistoryIsInOrder | backend/queries.py:445-460 | though transactions commit out of the order of their numbers, the entries of one Thing or edge are numbered in the order in which they were committed, unless both tell of an edge found gone |
| WriterNumbers.MissedIff | backend/queries.py:463-492 | what a reader that goes on from the last number it read misses is exactly what was in flight under a number no higher as it read, if that is ever committed |
| WriterExamples.AnEntryIsMissed | backend/queries.py:463-492 | a run of two creates in which an entry is committed after one with a higher number was read |
| WriterRuns.CommitIsTheCallIff | backend/service.py:205-845 | in any interleaving a commit leaves exactly what its call made alone at that instant leaves, if and only if the tags it read of its evidence and preference are still fit and the edge it removes is still there |
| WriterRuns.SerialInCommitOrder | backend/service.py:205-845 | a run in which no such reading was overtaken leaves the tables and the journal its calls leave one after another, in the order of their commits |
| WriterExamples.AnEvidenceCheckIsOvertaken | backend/service.py:497-507 | a run in which evidence is tagged as one of Reli's own records between the check of its tags and the commit of its edge |
| WriterRuns.AddedOnce | backend/service.py:782-825 | evidence answered as added is linked, by one new edge with one entry where there was none and by nothing at all otherwise, races lost to the index included |
| WriterRuns.OneWinner | backend/service.py:793-798 | of any number of calls adding the same evidence to the same preference only one commits, unless its edge is unrelated in between |
| WriterRuns.AnchorIsMadeOnce | backend/service.py:674-706 | of any number of first writers only one ever makes the anchor |
| WriterRuns.AnchoredIsThere | backend/service.py:687-706 | whoever is answered with the anchor, the losers included, finds it there from then on |
| WriterRuns.RejectionExtends | backend/service.py:828-845 | a rejection extends the tags as they stand when it commits and changes no other Thing and no edge |
| WriterExamples.WithoutTheLockARejectionIsLost | backend/service.py:327-334 | without the row lock a rejection answered as done can be overwritten by a tag write that read the row before it |
| Journal.PageContinues | backend/queries.py:463-492 | a page continues exactly where the last one ended, `total` shrinks by its length, and it is truncated exactly when the next page is not empty |
| Journal.PageIsOldest | backend/queries.py:463-492 | a page holds the oldest entries above the id by the actors named, as many as the limit allows and none passed over; `total` counts all of them, and the page is truncated exactly if they are more than the limit |
| Journal.MatchingAfter | backend/queries.py:463-492 | reading above the k-th matching entry's id leaves out exactly the matches up to it |
| Journal.ReadAll | backend/queries.py:463-492 | paging by the last id seen until a page is not truncated ends, having read the matching entries, for every limit from one up and every actor filter |
| Journal.ReadInOrderOnce | backend/queries.py:463-492 | what was read is every matching entry and no other, in strictly increasing id order |
| Related.Walk | backend/queries.py:202-232 | the recursive query returns exactly the rows of the levels up to the depth allowed |
| Related.Shallowest | backend/queries.py:202-232 | one row per Thing other than the origin, none shallower in the walk |
| Related.RowsAreWalks | backend/queries.py:202-232 | every row ends an undirected walk of as many wanted edges as its depth; parallel edges, loops and cycles add rows, never shortcuts |
| Related.ShortestIsSimple | backend/queries.py:202-232 | a shortest walk visits no Thing twice |
| Related.SimpleWalksAreRows | backend/queries.py:202-232 | every walk without repetition out of the origin is enumerated |
| Related.RowsAreSimple | backend/queries.py:202-240 | over edges without self-loops, which is all the service makes, no row revisits a Thing of its path |
| Related.WalkEnds | backend/queries.py:235-247 | so on every graph, cycles included, the walk ends without any depth bound: no level is reached beyond the number of Things |
| Related.ShallowestIsDistance | backend/queries.py:202-232 | a row of a Thing is its shallowest exactly when its depth is the Thing's undirected distance |
| Related.RelatedThings | backend/queries.py:235-275 | a Thing is answered at depth d exactly when its undirected distance over the wanted types is d and 1 <= d <= min(depth, 5); each once, nearest first, arriving by an edge from a Thing one step nearer |
| Listing.ListByImportance | backend/queries.py:377-379 | the Things asked for, each once, by priority downwards and then title |
| Tree.LevelRows | backend/queries.py:334-375 | the rows of a level: children of the parent, or active Things no active Thing claims, less excluded tags |
| Tree.TreeLevel | backend/queries.py:334-381 | the level in order, each Thing once, with its number of distinct active children |
| Tree.LevelShows | backend/queries.py:334-375 | a level shows exactly the active children of the parent, or the active Things no active Thing claims, that carry none of the tags left out: one shared tag is enough to leave a Thing out |
| Tree.CountIsExpansionIff | backend/queries.py:309-331 | `child_count` is the number of rows expanding returns exactly when no active child carries an excluded tag |
| ServiceRuns.CountCanExceedExpansion | backend/queries.py:309-331 | a run of the service after which a node's `child_count` is one and expanding it, with preferences left out, returns nothing |
| Tree.ParentIsHigher | backend/service.py:484-496 | over an acyclic hierarchy a parent has strictly fewer ancestors than its child |
| Tree.DescentExists | backend/queries.py:334-381 | a descent through active Things from the top level to any active Thing |
| Tree.TreeShowsExactlyTheActive | backend/queries.py:334-381 | over an acyclic hierarchy what the tree can show is exactly the active Things |
| UserModel.EvidenceByPreference | backend/queries.py:495-528 | each wanted preference with supporting edges gets the sources of exactly those edges in the order attached; no other key appears |
| UserModel.EvidenceOf | backend/queries.py:531-536 | the evidence of one preference, in the order attached |
| UserModel.StrengthIsExactIff | backend/queries.py:88-112 | the evidence count is the number of distinct evidence Things exactly when no Thing supports the preference twice |
| UserModel.ReadUserModel | backend/queries.py:544-595 | lists exactly the anchored, tagged preferences in scope with a scope and some evidence, rejected ones only on request, each once and most important first, with their evidence |
| UserModel.InModelIff | backend/queries.py:544-595 | a Thing is in the user model exactly if it is tagged a preference, the anchor points at it, it is not rejected unless those are asked for, its scope is more than white space and folds to the one asked for, and a Thing supports it |
| Evidence.StrengthIsExact | backend/db_models.py:205-226 | after any run of calls the evidence count of every preference is its number of distinct evidence Things |
| Evidence.DistinctKeepsElements | backend/service.py:738-740 | the ids wanted are the ids given, each once |
| Evidence.DistinctKeepsOrder | backend/service.py:738-740 | in the order they first come |
| Evidence.NoScopeIff | backend/service.py:731-733 | a preference is refused for want of a scope exactly when the scope given is nothing but white space |
| Evidence.RecordedStrength | backend/service.py:709-771 | a recorded preference is supported by exactly the ids given, counted once each, and no other preference changes; a refused one leaves nothing but the anchor |
| Evidence.RecordedIsListed | backend/queries.py:544-595 | the user model lists a recorded preference at once, for exactly the scopes that fold to its own |
| Evidence.ReinforcedByOne | backend/service.py:782-825 | reinforcing adds exactly the one Thing with one entry, or changes and journals nothing |
| Evidence.RejectedKeepsEvidence | backend/service.py:828-845 | rejecting leaves every edge and every other Thing, takes the preference out of the user model, and keeps it for whoever asks for rejected ones |
| Backfill.FindCaptures | backend/service.py:413-418 | exactly the active undated Things outside the internal tags, oldest first |
| Backfill.BackfillCheckinDates | backend/service.py:396-439 | the whole pass, uncommitted, and its count |
| Backfill.WhatBackfillWrites | backend/service.py:420-427 | the k-th capture falls due k div 5 days after the first day and is marked new if it has no description; no other Thing and no edge changes |
| Backfill.WhatACaptureBecomes | backend/service.py:420-427 | of the k-th capture only the date, k div 5 days after the first day, the instant, and, if it was never described, one new tag change |
| Backfill.WhatBackfillJournals | backend/service.py:428-437 | one update entry per capture, in order, by the scheduled actor, with before and after |
| Backfill.FiveADay | backend/service.py:393-439 | five captures fall due on each day from the first, except that the last day takes what is left |
| Backfill.OlderNotLater | backend/service.py:410-427 | an older capture never falls due after a newer one |
| Backfill.SecondRunTouchesNothing | backend/service.py:396-439 | a second run finds nothing to date and changes nothing |
| Collapse.CollapseDuplicateEvidence | backend/service.py:629-668 | the whole pass, uncommitted, and its count |
| Collapse.GoneAreSuperseded | backend/service.py:656-666 | an edge is removed exactly when its pair carries an older evidence edge |
| Collapse.CollapseKeepsEarliest | backend/service.py:629-668 | of each pair exactly the earliest edge stays, nothing else changes, every pair keeps its evidence, none is doubled, and the count is edges less distinct pairs |
| Evidence.CollapseKeepsShown | backend/service.py:629-640 | the evidence the read path lists for a preference after the pass is the list it showed before, each Thing once, where it first came |
| Collapse.WhatDeletionsJournal | backend/service.py:602-616 | one unrelate entry per edge removed, by the scheduled actor, with the edge as it was |
| RateLimit.Bucket.SpendOne | backend/rate_limit.py:143-153 | a token spent, or a refusal with the seconds to wait |
| RateLimit.Limiter.Add | backend/rate_limit.py:134-135 | a new key gets a full bucket at the recent end |
| RateLimit.Limiter.DropOldest | backend/rate_limit.py:136-137 | only the least recently used bucket goes |
| RateLimit.Limiter.Reuse | backend/rate_limit.py:138-141 | a known key moves to the recent end and its bucket is refilled |
| RateLimit.Limiter.Take | backend/rate_limit.py:130-153 | one request: the dictionary, its order, every bucket and the answer |
| RateLimit.TouchValid | backend/rate_limit.py:130-141 | the key just touched is never the one dropped and the dictionary stays within its cap |
| RateLimitBounds.AnswerAgrees | backend/rate_limit.py:143-153 | over any run an admitted request is asked for no wait, a refused one for a second at least and promised nothing, and its bucket remembers which it was |
| RateLimitBounds.TakenKeepsOrder | backend/rate_limit.py:130-141 | the dictionary's order is the order of the last use |
| RateLimitBounds.OnlyIdleDropped | backend/rate_limit.py:136-137 | a bucket is dropped only after sixty idle seconds, when no sixty seconds touch more keys than the cap |
| RateLimitBounds.ForgottenIsFull | backend/rate_limit.py:138-141 | a bucket idle for sixty seconds would be full again whatever its limit, so forgetting it changes no answer |
| RateLimitBounds.BoundedAgreesWithUnbounded | backend/rate_limit.py:44-61 | on every run in which no sixty seconds touch more distinct keys than the cap, every answer is the unbounded limiter's |
| RateLimitBounds.SpendingConserves | backend/rate_limit.py:130-153 | a request takes from its key exactly one token if admitted and none otherwise, and none from any other key |
| RateLimitBounds.AdmissionsBounded | backend/rate_limit.py:130-153 | a key not evicted meanwhile is admitted at most limit + limit * T / 60 times in any T seconds |
| RateLimitBounds.RemainingIsHonoured | backend/rate_limit.py:143-174 | while fewer of the remaining requests an answer promised have been admitted, the key's next request is admitted, evictions or not |
| RateLimitBounds.RemainingIsExact | backend/rate_limit.py:143-174 | no larger promise would be kept: of requests that come at once exactly the remaining ones are admitted, while the bucket is not dropped |
| RateLimitBounds.RefusalsOnlyRefill | backend/rate_limit.py:138-153 | refused attempts take nothing: the bucket keeps all it has earned since the first of them |
| RateLimitBounds.RetryAfterIsHonoured | backend/rate_limit.py:153-153 | after a refusal any attempt at least Retry-After seconds later is admitted, however many refused ones came between |
| RateLimitBounds.RetryAfterIsLeast | backend/rate_limit.py:153-153 | no earlier whole second is enough: an attempt a second or more before Retry-After runs out is refused again, while the bucket is not dropped |

## Left out

- RotationRuns.ReplayRevokesTheWinner: a revoke is taken only while no other exchange holds a row of that family; what a revoke does beside an uncommitted rotation of another member is not modelled.
- RotationRuns.ReplacedAtMostOnce: the exchanges of one client are distinguished only by the token they present; each step of an exchange reads the clock once.
- Connector.HistoryIsARun: whole requests, one after another; how refreshes interleave is Rotation's, how sign-ins interleave SignIn's. Logout's list stands apart.
- OauthState.StoredKeepsCap: stores are taken one at a time; two concurrent inserts may each count before the other commits, and no cap is claimed for them.
- ConnectorAnswers.StoresStayCapped: whole requests, one after another; see the line before.
- RateLimitBounds.AdmissionsBounded: the limit of a key is taken as constant over the run, as it is within one process, and floating-point tokens are reals, so rounding is not modelled.
- RateLimitBounds.RemainingIsHonoured: the limit of a key is taken as constant, and tokens are reals.
- RateLimitBounds.RetryAfterIsHonoured: the limit of a key is taken as constant, and tokens are reals.
- RateLimitBounds.RemainingIsExact: likewise; and of a bucket that is not dropped meanwhile, since one dropped early starts full.
- RateLimitBounds.RetryAfterIsLeast: likewise; and of a bucket that is not dropped meanwhile.
- Service.Session.CreateThing: the bounds on notes and urls, in bytes of their JSON, are not modelled; priorities are reals, so always finite.
- Service.Session.UpdateThing: the bounds on notes and urls, in bytes of their JSON, are not modelled.
- ServiceAnswers.CreateAnswers: likewise without the bounds on notes and urls.
- ServiceAnswers.UpdateAnswers: likewise without the bounds on notes and urls.
- UserModel.ReadUserModel: case folding is a parameter, one for the database's and Python's, and titles compare by code point rather than collation.
- Backfill.BackfillCheckinDates: tomorrow in the owner's time zone is a parameter, and days are integers.
- WritersProofs.EveryInterleavingIsSound: what a call reads before its first lock or write it reads in one instant; the two passes of the migrations run alone.
- WriterRuns.CommitIsTheCallIff: `record_preference` is its second transaction, over an anchor made by a session of its own before; there it reads the evidence's tags again, and where that refuses it half-way the model has the session die.
- Service.Session.GetOrCreateUserAnchor: one session; the race of the first writers is in `WriterRuns`.
- Journal numbers skipped by a rolled-back transaction: `Service` gives them out again, `Writers` does not.
- The remaining reads (`find_things`, `history`, `due_for_checkin`, `stale`, `needs_input`, `blocked`, `children`): single filters over one table.
- JWT signing and verification, SHA-256, random ids and Google's exchange: a token is its claims, a digest is injective, an id or token is fresh.
- SignInEndpoint.Server.Register: takes the body already parsed and within its size; whether a redirect URI is safe is a parameter.
- SignInEndpoint.Server.Authorize: whether a redirect URI is safe is a parameter, and the length limits of the query are not modelled.
- SignInEndpoint.Server.GoogleCallback: what Google answered is a parameter; the session cookie is its subject and email.
- The consent page, and the request by which the owner approves it and the browser is given its cookie. A stored code carries the client's own state along, which the code row of the source leaves out.
- Email lower-casing before the allow list is consulted, HTTP statuses and headers, tier routing, client addresses, settings, logging and the frontend.
- Alembic's schema scans and the deploy scripts: of the migrations only the two passes they call are modelled.
