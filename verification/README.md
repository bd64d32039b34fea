# AgentWrit broker: a verified model

The broker hands short-lived, scope-limited tokens to software agents. An operator or an
app creates launch tokens; an agent registers with one, proving possession of its key over
a nonce; agents renew their tokens and delegate narrower ones to each other; tokens are
revoked by identifier, agent, task or delegation chain; everything is recorded in a
hash-chained audit log.

The project models that credential lifecycle as one state machine, and around it the
self-contained algorithms it rests on or is guarded by: the scope algebra, the audit log,
the rate limiter, the heartbeat monitor, the mutual handshake and the config file.

## How the model is laid out

- `Scope`, `Claims`, `Tokens`, `Delegation`, `Revocation`, `Store`, `Identity`, `Admin`
  follow the Go packages. A Go object whose methods change it is a class; each method is
  proved equal to a specification function, and the theorems are about those functions.
- `Broker` is the state machine. A step is one atomic action: one store, database or
  revocation call, one issuance, a clock tick, a restart. Register, Renew, Delegate,
  launch-token creation and app login are programs of several steps, and any number of calls
  may be in flight. `RegisterRun` and `CallRuns` show that the sequential programs are runs
  of these steps. The state also records every token ever issued with where it came from,
  every launch token ever stored with its request, the ceiling that was checked against and the
  token it was created with, and every nonce ever created; steps read this record only to
  choose fresh random values and to name the token a call was made with.
- `History`, `Registration`, `Provenance`, `Issuance`, `Enrolment`, `Renewal`, `Finality`,
  `AppTokens`, `Ceiling`, `AppLife`, `Deregistration`, `AppLaunches` hold the theorems over all
  runs from an empty broker; `Fresh` supplies unused random values where a theorem builds a run.
- `Audit`, `AuditChain`, `AuditRestart`, `AuditQuery`, `Redaction` cover the audit log;
  `RateLimit`, `Heartbeat`, `Handshake`, `ConfigFile` the rest; `Text` the string facts.

Ed25519, SHA-256, base64, JSON, hex, RFC 3339 text and SPIFFE identifiers are parameters
(`Crypto`). A theorem names the laws it needs: base64url reads back what it writes and
knows no other alphabet, JSON reads back headers and claims, a signature verifies under its
own key, time and hex text read back and hold no bar, a SPIFFE identifier starts with its
scheme. `LawModel` gives encodings that meet all of them at once. No theorem assumes that
hashes do not collide or that signatures cannot be forged: it exhibits, from the logs or
messages it is about, the two colliding texts, or the text a key never signed and the
signature that verifies for it. Only the honest handshake asks its one signature to verify
under no other key. Clock readings, random values and whether the database
accepts a statement are inputs of the methods and steps.

## Where the code does not do what one might expect

- Two renewals of one token that are both past verification leave two live tokens of one
  lineage, although each revokes the predecessor first (`Renewal.OverlapSplitsLineage`);
  a lineage without that overlap has at most one (`Renewal.OneLiveTokenPerLineage`).
- The ceiling is read at one database call and the launch token stored at a later one: a
  ceiling narrowed in between does not bind the token stored (`Ceiling.NarrowedMeanwhile`).
- The ceiling is looked up by the caller's subject. An app may delegate its right to create
  launch tokens, and the agent it hands the right to creates them without any ceiling
  (`Ceiling.DelegateEscapesCeiling`).
- The comment on `DeregisterApp` says that an app's credentials stop working immediately and
  that it can no longer create launch tokens. A login past its status check still issues
  (`Deregistration.LoginOutlivesDeregistration`), and an app that holds an admitted token
  can renew it past any time and create launch tokens then (`AppLife.DeregisteredAppContinues`).
  Revoking the app's subject at agent level stops its tokens (`Deregistration.AgentRevocationEnds`),
  and with them new requests, but not a launch-token request that was admitted before: it still
  stores a launch token under the app (`AppLaunches.LaunchOutlivesRevocation`).
  `AppLaunches.CreatesAgainExactly` gives the exact condition, requests in flight included.
- Completing a handshake never compares the responder with the intended target: any
  registered agent that signs the nonce completes it (`Handshake.OtherAgentCompletes`), and
  so does an honest reply to a request rewritten on the way
  (`Handshake.RewrittenRequestCompletes`). The caller has to compare the name in the
  response (`Handshake.CompletionAgrees`).
- A responder signs whatever nonce it is sent, with the key it registered with: a reply to a
  nonce that is the bytes of a registration nonce passes as a proof of possession
  (`Handshake.ReplyPassesAsProof`); there is no other way but signing for that nonce or a
  forgery (`Handshake.RegistrationProves`).
- A comma is allowed in a scope identifier, so one scope and two scopes can have the same
  signed delegation content (`Delegation.CommaScopesCollide`).
- A `|` in an agent or task identifier makes different audit events hash alike
  (`AuditChain.BarsInIdentifiersCollide`).
- The text order of event ids stops being the numeric order at event 1,000,000, so a
  restart no longer restores the log from then on (`AuditRestart.ReopenExactly`).
- An audit event whose save failed is missing after a restart, and if the next one was saved
  the chain has a gap and an identifier is given out twice, so that the next event is not
  saved either (`AuditRestart.LostSaveReissuesId`).
- Redaction at `": "` is undone by a later `=`: the text between them is kept
  (`Redaction.LaterEqualsWins`). Redaction at `=` drops everything after it.
- A limiter with a burst below one grants the first call of every key nevertheless
  (`RateLimit.RateBoundNeedsBurst`).
- A revocation whose write to the database failed is reported as a success and is gone
  after a restart unless it is revoked again (`Finality.UnpersistedLostExactly`); a renewal whose revocation was lost
  so leaves both tokens admitted (`Renewal.LostRevocationSplitsLineage`).

## Model

| member | source | states |
|---|---|---|
| Scope.ParseScopeExact | internal/authz/scope.go:41-50 | a text parses to given parts exactly when it is those non-empty parts with colons between them, action and resource colon-free; further colons belong to the identifier |
| Scope.ScopeIsSubset | internal/authz/scope.go:79-93 | the nested loop answers true exactly when each requested scope is covered by some allowed one |
| Scope.SubsetIsInclusion | internal/authz/scope.go:55-93 | for all lists: accepted if and only if every requested scope is well formed and the set of concrete (action, resource, identifier) triples it permits lies inside the allowed set |
| Scope.SubsetTransitive | internal/authz/scope.go:71-93 | attenuation composes along any chain of hand-overs, malformed lists included |
| Scope.SubsetReflexiveExactly | internal/authz/scope.go:71-93 | a list may be passed on unchanged if and only if every entry is well formed |
| Revocation.RevocationTable.SaveRevocation | internal/store/sql_store.go:925-936 | the row is there once however often it is saved, and nothing changes when the database refuses |
| Revocation.RevSvc.Check | internal/revoke/rev_svc.go:69-99 | the four lookups together decide revocation of the claims |
| Revocation.RevSvc.Revoke | internal/revoke/rev_svc.go:106-133 | succeeds exactly for a non-empty target and one of four levels, adds that entry in memory whether or not it could be persisted, and changes nothing on error |
| Revocation.RevSvc.RevokeByJTI | internal/revoke/rev_svc.go:138-141 | revokes one token identifier in memory and, if possible, in the table; refuses only the empty one |
| Revocation.RevSvc.LoadFromEntries | internal/revoke/rev_svc.go:145-160 | the lists afterwards are the old ones with all loaded entries added, unknown levels ignored |
| Revocation.RevokedExactly | internal/revoke/rev_svc.go:69-99 | claims are revoked if and only if some listed entry is about them: their identifier, subject, non-empty task or first delegator |
| Revocation.LoadLists | internal/revoke/rev_svc.go:145-160 | after loading, exactly the earlier entries and the loaded entries of a known level are listed |
| Tokens.TknSvc.Renew | internal/token/tkn_svc.go:260-294 | an invalid token changes nothing; a valid one is revoked by its identifier, persisted if the database accepts, and replaced by a token that differs from it in identifier and times only and lives as long, within the maximum |
| Tokens.SplitUndoesSign | internal/token/tkn_svc.go:302-322 | splitting at two dots recovers the three parts that were signed and joined (RFC 7515, section 7.1) |
| Tokens.VerifyOfSigned | internal/token/tkn_svc.go:184-245 | a token text of this service passes or fails by its claims alone, with the same error |
| Tokens.VerifyAcceptsExactly | internal/token/tkn_svc.go:184-245 | any text verifies to given claims if and only if it is three parts between two dots, signed under EdDSA by the service's key (and key name, if one is given) over the first two, the second reading as the claims, and these name a subject, an identifier and an expiry, are in force, come from the configured issuer and are targeted by no revocation |
| Tokens.IssueThenVerify | internal/token/tkn_svc.go:130-245 | a fresh token verifies to exactly the issued claims if and only if it is no earlier than issue, no later than expiry (inclusive) and not revoked |
| Tokens.VerifiedClaimsFixed | internal/token/tkn_svc.go:184-245 | what a token text says never depends on when, or against which revocations, it is verified |
| Tokens.LifetimeBounds | internal/token/tkn_svc.go:130-146 | lifetimes never exceed a positive maximum and are positive when the default is |
| Tokens.LifetimeExactly | internal/token/tkn_svc.go:130-180 | a token lives exactly as long as asked for, by default for a request of 0 or less, cut to a positive maximum; it is in force from its issue, and the lifetime announced is the one in its claims |
| Tokens.RenewalKeepsLifetime | internal/token/tkn_svc.go:276-294 | under one configuration a renewal lives exactly as long as its predecessor, so renewing cannot lengthen a token |
| Store.SqlStore.CreateNonce | internal/store/sql_store.go:136-151 | a nonce starts unconsumed and runs out 30 seconds later |
| Store.SqlStore.ConsumeNonce | internal/store/sql_store.go:156-173 | succeeds exactly for a known, unconsumed nonce no later than its expiry, and marks it consumed; an expired one is forgotten and any other refusal changes nothing |
| Store.SqlStore.SaveLaunchToken | internal/store/sql_store.go:177-182 | the record replaces any other under the same token, and nothing else changes |
| Store.SqlStore.GetLaunchToken | internal/store/sql_store.go:188-203 | returns the stored record exactly while it is no later than its expiry and not consumed; otherwise says which of missing, expired and consumed it is, in that order |
| Store.SqlStore.ConsumeLaunchToken | internal/store/sql_store.go:208-222 | succeeds exactly for a stored token not yet consumed, expired or not, and marks that one consumed now; nothing else changes |
| Store.SqlStore.SaveAgent | internal/store/sql_store.go:225-230 | the record is stored under its identifier, and nothing else changes |
| Store.SqlStore.GetAgent | internal/store/sql_store.go:234-243 | returns the stored record or says there is none |
| Store.SqlStore.ConsumeActivationToken | internal/store/sql_store.go:265-275 | an identifier recorded before is refused; otherwise it is recorded with its expiry |
| Store.SqlStore.PruneExpiredJTIs | internal/store/sql_store.go:296-309 | what remains are exactly the identifiers not past their expiry, and the others are counted, in whatever order the map is visited |
| Store.ActivationAcceptedOnce | internal/store/sql_store.go:260-309 | over any sequence of activations and prunes before its expiry, an accepted activation token is refused ever after |
| Delegation.ScopeCSV | internal/deleg/deleg_svc.go:200-209 | the loop joins the scopes with single commas |
| Delegation.DelegSvc.SignRecord | internal/deleg/deleg_svc.go:192-197 | the record names agent, scopes and time, and its signature, read as hex, verifies under the key's public half for agent, comma-joined scopes and formatted time with bars between |
| Delegation.DelegSvc.Delegate | internal/deleg/deleg_svc.go:99-187 | succeeds exactly for a complete request to a known agent, for scopes that permit no more than the delegator's, under a chain of fewer than five links; the token names delegate and scope, inherits task, orchestrator and audience, lives as asked or 60 seconds, and extends the chain by a signed link with the delegator's name and scopes, hashed |
| Delegation.RefusedExactly | internal/deleg/deleg_svc.go:99-133 | the checks pass if and only if those conditions hold, in terms of what the scopes permit |
| Delegation.ContentEqualExactly | internal/deleg/deleg_svc.go:192-209 | two records are signed over the same content if and only if agent and time agree and the scope lists agree once split at commas (bar-free agents, non-empty lists) |
| Delegation.ContentDecodable | internal/deleg/deleg_svc.go:192-209 | with comma-free scopes the signed content determines agent, scope list and time; scopes may hold bars |
| Delegation.CommaScopesCollide | internal/deleg/deleg_svc.go:192-209 | for any two well-formed scopes, joining them with a comma is one well-formed scope with the same signed content as the two |
| Delegation.CsvReadsBackExactly | internal/deleg/deleg_svc.go:200-209 | a comma splitter undoes the join if and only if no scope holds a comma |
| Delegation.VerifyAcceptsOnlyIssued | internal/token/tkn_svc.go:184-245 | one key signs tokens and delegation records, yet a text accepted as a token carries claims the broker issued, or else holds a signature for a text the key never signed; no signed record passes as a token |
| Delegation.LinkVerifiesOnlySigned | internal/deleg/deleg_svc.go:192-197 | a link that verifies under the broker's key has agent, scope list and time of a record the broker signed, or shows a text the key never signed with a signature for it; no signed token passes as a link (bar-free agents, comma-free scopes) |
| Delegation.IssuedHoldsNoForgery | internal/token/tkn_svc.go:302-322 | a token text handed out is of the first kind, whatever else the key has signed |
| Identity.IdSvc.Register | internal/identity/id_svc.go:125-272 | succeeds exactly when it may (next row), with the store then as it should be; on every branch outcome and store are those of the step functions the machine runs |
| Identity.RegisterSucceedsExactly | internal/identity/id_svc.go:125-200 | registration succeeds if and only if no field is missing, the launch token is stored, unexpired and unconsumed when read and permits all the scopes ask for, the nonce is stored, unused and in time, the 32-byte key presented signed its bytes, and a SPIFFE name can be made |
| Identity.RegisterGives | internal/identity/id_svc.go:190-272 | then the token names the agent, its task, orchestrator and scopes and lives as the launch token says or 300 seconds, the nonce and a single-use launch token are consumed, and the agent is stored with the key presented; a refusal stores no agent and, the name apart, spends no launch token |
| Identity.RegisterRefuses | internal/identity/id_svc.go:125-200 | which refusal is reported, and that those before the nonce leave the store as it was |
| Identity.ScopeViolationConsumesNothing | internal/identity/id_svc.go:123-156 | with a good launch token, registration fails for its scope if and only if the scope is not covered, and then neither nonce nor launch token is spent |
| Admin.AdminSvc.CreateLaunchToken | internal/admin/admin_svc.go:166-213 | succeeds exactly for a named agent and a non-empty scope list; the record found in the store then has name and scopes asked for, the asked agent lifetime or 300 seconds, expires the asked time or 30 seconds after now, and is for single use unless asked otherwise |
| Admin.AdminSvc.HandleCreateLaunchToken | internal/admin/admin_hdl.go:165-185 | in addition an app caller must be on record and ask for no more than its ceiling permits, while other callers pass unconstrained; the stored record names caller and app, and a refusal stores nothing |
| Admin.LaunchDecidedExactly | internal/admin/admin_hdl.go:165-185 | the decision is yes if and only if those conditions hold, in terms of what the scopes permit |
| Admin.AppSvc.ValidateScopes | internal/app/app_svc.go:291-298 | accepts exactly lists of well-formed scopes |
| Admin.AppSvc.RegisterApp | internal/app/app_svc.go:97-153 | stores an active app exactly for a valid name, a well-formed ceiling, a lifetime of 0 or 60 through 86400 seconds, an identifier, name and client not yet taken and a working database; a lifetime of 0 becomes the default |
| Admin.ValidAppNameExactly | internal/app/app_svc.go:52 | the names accepted are exactly those the regular expression matches, up to 64 characters |
| Admin.AppSvc.UpdateApp | internal/app/app_svc.go:218-229 | replaces the ceiling of that app only, and only by well-formed scopes |
| Admin.AppSvc.UpdateAppTTL | internal/app/app_svc.go:233-254 | changes that app's lifetime only, and only to 60 through 86400 seconds |
| Admin.AppSvc.DeregisterApp | internal/app/app_svc.go:259-271 | the app stays on record, inactive; everything else is unchanged |
| Broker.NextExtends | internal/identity/id_svc.go:125-272 | no step of any call takes back an issued token, a stored launch token or a created nonce, or turns the clock back, and none issues more than one token |
| RegisterRun.RegisterIsRun | internal/identity/id_svc.go:125-272 | the sequential Register is the machine's run of that call, on every branch: same store, and the same token or none |
| CallRuns.BeginsExactly | internal/token/tkn_svc.go:184-245 | the machine lets a call begin on an issued token exactly when its token text verifies |
| CallRuns.RenewIsRun | internal/token/tkn_svc.go:260-294 | the sequential Renew is the machine's run of that call: refused with the token text, or ending with predecessor revoked and one token more |
| CallRuns.DelegateIsRun | internal/deleg/deleg_svc.go:99-187 | the sequential Delegate is the machine's run of that call: refused with the token text or by its checks, or ending with one token more |
| CallRuns.LaunchIsRun | internal/admin/admin_hdl.go:165-185 | the uninterrupted launch-token handler is the machine's run of that call: refused with the token text or its scope, stopped at the ceiling, or ending with the decided record stored |
| CallRuns.AcceptedWasIssued | internal/token/tkn_svc.go:184-245 | in any state a text that verifies carries the claims of an issued and admitted token, so a call begins as the machine lets it, or it holds a forgery |
| History.NextKeepsHistory | internal/deleg/deleg_svc.go:107-167 | every step of every call, from any state in order, leaves a state where each issued token is explained by what was issued or created before it |
| History.ReachableHistory | internal/identity/id_svc.go:137-242 | that holds in every reachable state at every interleaving: memory holds only created nonces and launch tokens, calls know only what was checked, identifiers are distinct |
| Registration.RunExclusive | internal/store/sql_store.go:156-222 | in every reachable state each nonce and each single-use launch token has at most one holder, a call in flight or an issued token, and cannot be taken again, also across restarts |
| Registration.SingleUseIssuesOnce | internal/identity/id_svc.go:192-222 | at every interleaving of any number of registrations a single-use launch token yields at most one issued token |
| Registration.NoncesUsedOnceInTime | internal/store/sql_store.go:136-173 | registrations that issue have pairwise distinct nonces, each consumed within 30 seconds of its creation |
| Provenance.WholeRunAttenuation | internal/deleg/deleg_svc.go:113-167 | whatever a token of any run permits is permitted by its root (launch token, admin or app scopes), and for a launch token of an app also by the ceiling its request was checked against |
| Ceiling.CeilingIsFromCheck | internal/admin/admin_hdl.go:165-185 | the recorded ceiling is the app's at the step that read it, an earlier step of the same call than the one that stored the launch token, whatever changes happen before, between and after |
| Ceiling.StoredWithinCeilingExactly | internal/admin/admin_svc.go:166-213 | over any steps between check and storage: the stored scopes lie within the ceiling then in force if and only if they lie within the last ceiling set in between, and always when none is |
| Ceiling.NarrowedMeanwhile | internal/app/app_svc.go:218-229 | from any call past its check, setting a ceiling its scopes exceed and then storing leaves a launch token over the ceiling in force |
| Ceiling.CappedExactly | internal/admin/admin_hdl.go:165-183 | a launch token made under an app carries that app's ceiling if and only if its creator's subject is the app itself; otherwise it carries neither ceiling nor app |
| Ceiling.AppLineageCapped | internal/admin/admin_hdl.go:165-183 | in every run a token made under an app stays within the app's own scopes or, where the app itself created the launch token behind it, within the ceiling checked then |
| Ceiling.DelegateEscapesCeiling | internal/deleg/deleg_svc.go:113-167 | from any admitted app token and registered agent a run leads to a launch token of any scopes, made under the app and carrying no ceiling |
| AppTokens.AppTokenShape | internal/app/app_svc.go:189-194 | a token whose subject is an app comes from a login of that app through renewals only, with exactly the fixed scopes, no task and no chain |
| Provenance.DelegationProvenance | internal/deleg/deleg_svc.go:107-167 | in every reachable state a chain has at most five links; each names a token issued earlier with that subject, that scope and the chain up to there; scopes descend to the token's own; task, orchestrator and audience are inherited; every link is signed and the chain hash is that of the chain; under the laws of signatures and hex each link verifies under the broker's public key |
| Provenance.AudienceInherited | internal/authz/val_mw.go:111-120 | every token of every reachable state carries the configured audience, so the audience check never refuses one |
| Provenance.WholeRunLifetimes | internal/token/tkn_svc.go:130-137 | through any number of renewals a token lives exactly as long as the first of its lineage, within the configured maximum |
| Issuance.IssuedAsAsked | internal/token/tkn_svc.go:130-180 | every token of every reachable state says what was asked for it: issuer, audience and times; for logins subject, the fixed scopes and lifetime; for agents a SPIFFE name of their task, scopes within the launch token's, its lifetime or 300 seconds, the launch token read within its validity and before the nonce was used, that within 30 seconds, and both before issue; for delegates the request and the delegator's surroundings; for renewals the predecessor's claims but for identifier and times |
| Issuance.LivesAsFirstAsked | internal/token/tkn_svc.go:130-146 | however often renewed, a token lives the time asked for its lineage's first token (login, launch token or 300, delegation or 60), cut to a positive maximum |
| Issuance.OneAgentUnlessAsked | internal/admin/admin_svc.go:182-185 | a launch token whose request did not ask for several uses yields at most one agent token |
| Issuance.LaunchBeginsExactly | internal/admin/admin_hdl.go:62-67 | a launch-token request is admitted if and only if its token verifies and its scopes include one of the two launch-token scopes itself |
| Issuance.OneTokenPerCall | internal/token/tkn_svc.go:130-180 | at every interleaving of registrations, logins, renewals and delegations no call issues a second token |
| Issuance.RestartForgets | internal/store/sql_store.go:136-243 | after a restart every launch token, nonce and delegate named before is unknown and refused; issued tokens and apps remain |
| Enrolment.EveryAgentEnrolled | internal/identity/id_svc.go:164-265 | every agent on record belongs to a token issued at a registration: same name, task, orchestrator and scopes, the app of the launch token used, and a 32-byte key that signed the nonce used |
| Renewal.PredecessorRevokedFirst | internal/token/tkn_svc.go:266-293 | at every interleaving, when a renewed token is issued its predecessor is already revoked |
| Renewal.PredecessorsStayRevoked | internal/token/tkn_svc.go:266-293 | and it stays so in every later state while restarts lose no revocation |
| Renewal.OneLiveTokenPerLineage | internal/token/tkn_svc.go:260-294 | a lineage none of whose tokens is renewed twice at a time, or loses its revocation at a restart, has at most one unrevoked token, however other tokens are renewed or lost |
| Renewal.OverlapSplitsLineage | internal/token/tkn_svc.go:260-294 | from any state with two renewals of an admitted token past verification, the run can continue to two admitted tokens of that lineage |
| Renewal.OverlapCanBegin | internal/token/tkn_svc.go:260-274 | that state is within reach from any admitted token: a second renewal may begin while the first has only verified |
| Renewal.LostRevocationSplitsLineage | internal/revoke/rev_svc.go:127-132 | from any admitted token, a renewal whose revocation was not written and a restart leave predecessor and successor both admitted: the restart condition above is needed |
| Finality.RevocationFinalAndHereditary | internal/revoke/rev_svc.go:69-133 | after a revocation, in every later state and at every time, each token it reaches fails verification: for tasks and chains all renewals and delegations from a matching token, for agents all renewals, issued before or after; through restarts if it was persisted |
| Finality.SavedOnce | internal/store/sql_store.go:925-936 | in every reachable state the revocation table holds each entry once, however often it was revoked |
| Finality.UnpersistedLostExactly | internal/revoke/rev_svc.go:127-132 | after any further steps and a restart, a revocation whose write failed is in force if and only if the entry was in the database before or one of those steps wrote it |
| Finality.RestartRestores | internal/store/sql_store.go:925-960 | when all writes succeeded, a restart restores the revocation lists exactly |
| Deregistration.DeregisteredForGood | internal/app/app_svc.go:158-204 | once deregistered, an app is issued a token at a login by some continuation if and only if a login is already past its status check |
| Deregistration.LaunchTokensContinue | internal/admin/admin_hdl.go:165-185 | whether the app is active changes neither which tokens are admitted nor what the ceiling check decides |
| Deregistration.ActiveExactly | internal/app/app_svc.go:259-271 | an app is active after a run if and only if it was before and no step deregistered it |
| Deregistration.LoginToActiveExactly | internal/app/app_svc.go:158-204 | a login past its check issues, to a still active app if and only if the app was not deregistered since its status was read |
| Deregistration.LoginLivesAsSet | internal/app/app_svc.go:158-204 | a login's token lives the app's lifetime last set before its status was read; one set later does not bind it |
| Deregistration.LoginOutlivesDeregistration | internal/app/app_svc.go:170-204 | from any login past its check, deregistering and then issuing leaves an inactive app with a new token |
| AppLife.KeptAlive | internal/token/tkn_svc.go:260-294 | renewing at the end of each lifetime, the holder of any admitted token has an admitted one with the same subject and scope at any later time |
| AppLife.DeregisteredAppContinues | internal/app/app_svc.go:256-271 | from any admitted token of an app and for any time, a run deregisters the app, renews past that time and stores a launch token of the app with any scopes within its ceiling |
| Deregistration.RequestsAgainExactly | internal/app/app_svc.go:256-271 | a registered app begins a further launch-token request, by some continuation that loses no revocation, if and only if it can log in, or is not revoked as an agent and holds an admitted token or has a login or renewal under way; once closed and without these, never again |
| AppLaunches.InFlightStores | internal/admin/admin_hdl.go:165-185 | a launch-token request already admitted can run on to a stored launch token, under the ceiling it has read or one set to what it asks for, also when the app has been deregistered, revoked as an agent, or both |
| AppLaunches.CreatesAgainExactly | internal/app/app_svc.go:256-271 | a launch token recorded under a registered app is stored by some continuation that loses no revocation if and only if a request of the app is in flight with its fields present and scopes that are or can be within the ceiling, or the app can log in, or it still acts |
| AppLaunches.RevokedCreatesExactly | internal/revoke/rev_svc.go:106-133 | once the app is revoked as an agent, this is the case if and only if such a request is in flight |
| AppLaunches.LaunchOutlivesRevocation | internal/admin/admin_svc.go:166-213 | from any request past the ceiling check, deregistering the app and revoking it as an agent leave no admitted token of it, and the request then stores a launch token under the app |
| Deregistration.AgentRevocationEnds | internal/revoke/rev_svc.go:106-133 | after an agent-level revocation of the app's subject no token of the app passes in any later state, so no request of it begins, through restarts if the revocation was persisted |
| RateLimit.RateLimiter.Allow | internal/authz/rate_mw.go:44-71 | answer and new buckets are those of one refill and one withdrawal on this key's bucket; a first call is always granted |
| RateLimit.KeysIndependent | internal/authz/rate_mw.go:44-71 | in any history a key is answered as if the others did not exist |
| RateLimit.BucketsBounded | internal/authz/rate_mw.go:58-70 | after any history every bucket holds between 0 and burst tokens |
| RateLimit.RateBound | internal/authz/rate_mw.go:44-71 | over any history and any window, a key is granted at most burst plus rate times the length of the window |
| RateLimit.RateBoundNeedsBurst | internal/authz/rate_mw.go:49-56 | with a burst below one, the first call already breaks that bound |
| RateLimit.SpacedCallerServed | internal/authz/rate_mw.go:58-70 | a caller whose requests are at least 1/rate apart is never denied |
| RateLimit.BurstServed | internal/authz/rate_mw.go:44-71 | a key never seen, or idle for long enough to refill, is granted up to a whole burst of calls however close together, whatever others do |
| RateLimit.BurstExactly | internal/authz/rate_mw.go:44-71 | of any number of calls at one instant a new key is granted the first burst and denied the rest |
| RateLimit.DeniedCallUnobservable | internal/authz/rate_mw.go:58-70 | deleting any denied call from any history leaves every other answer as it was |
| Heartbeat.HeartbeatMgr.RecordHeartbeat | internal/mutauth/heartbeat.go:50-65 | the agent's count restarts at zero from now, known before or not |
| Heartbeat.HeartbeatMgr.CheckLiveness | internal/mutauth/heartbeat.go:69-83 | counts recorded misses and whole intervals since, without changing anything; unknown agents are not alive |
| Heartbeat.HeartbeatMgr.Sweep | internal/mutauth/heartbeat.go:108-154 | in whatever order agents are visited, each is counted once, and exactly those newly at the limit are revoked, in memory and where the database accepts |
| Heartbeat.Itoa | internal/mutauth/heartbeat.go:156-166 | the digit loop writes the decimal numeral, and nothing for a negative number |
| Heartbeat.RunAccounts | internal/mutauth/heartbeat.go:108-146 | in every history the counted misses cover at least half and at most all of the time from the last heartbeat to the last count, and every named agent at the limit has been revoked |
| Heartbeat.NoEarlyRevocation | internal/mutauth/heartbeat.go:108-146 | no sweep revokes an agent whose last heartbeat is under maxMiss intervals old |
| Heartbeat.SilentAgentRevoked | internal/mutauth/heartbeat.go:108-146 | after a sweep at least 2*maxMiss - 1 intervals past its last heartbeat a named agent is revoked |
| Heartbeat.LivenessNotOvercounted | internal/mutauth/heartbeat.go:69-83 | the reported count never exceeds the whole intervals since the last heartbeat |
| Heartbeat.LivenessNotUndercounted | internal/mutauth/heartbeat.go:69-83 | the reported count covers at least half of those intervals, and all of them while no sweep has come since |
| Heartbeat.SilentAgentNotAlive | internal/mutauth/heartbeat.go:69-83 | an agent silent for 2*maxMiss - 1 intervals is reported as not alive, swept or not |
| Heartbeat.HeardAgentAlive | internal/mutauth/heartbeat.go:50-83 | an agent heard from within maxMiss intervals is reported alive |
| Redaction.TailDroppedAfterEquals | internal/audit/audit_log.go:282-308 | when the text before the first "=" is sensitive, everything after it is dropped: details differing only there come out alike |
| Redaction.RedactedExactly | internal/audit/audit_log.go:282-308 | for every detail: if the text before the first "=" names a secret (one of the four keywords, in any case) everything after it is the mask; else the same at the first ": "; else the detail is unchanged |
| Redaction.TailDroppedAfterColonExactly | internal/audit/audit_log.go:294-308 | when ": " is the separator, a different tail comes out alike if and only if it brings no "=" that was not there before the separator |
| Redaction.LaterEqualsWins | internal/audit/audit_log.go:296-305 | with a sensitive key before ": " and a later "=", the text between them is kept |
| Redaction.SanitizeIdempotent | internal/audit/audit_log.go:282-308 | redacting twice is redacting once, for every detail |
| Audit.AuditTable.SaveAuditEvent | internal/store/sql_store.go:415-453 | a new identifier adds its row at the end; a taken one or a failing database adds nothing |
| Audit.AuditTable.LoadAllAuditEvents | internal/store/sql_store.go:458-508 | all rows decoded in text order of their identifiers, or an error if one has a bad timestamp |
| Audit.RowRoundTrip | internal/store/sql_store.go:431-446 | storing an event and reading it back loses nothing, empty and zero values through NULL included |
| Audit.SortByIdSorts | internal/store/sql_store.go:462-465 | the rows read are the rows stored, each as often, in text order of their identifiers |
| Audit.AuditLog.Record | internal/audit/audit_log.go:167-204 | appends one event with the parties and time given, the detail redacted as above, each optional field from the last option of its kind, and a hash linked to the previous one; its row is saved if the database accepts a new identifier, and a failing store does not stop it |
| Audit.SecretLeavesNoTrace | internal/audit/audit_log.go:167-204 | calls whose details differ only after a "=" that follows the name of a secret leave the same log, masked there |
| Audit.AuditLog.WithEvents | internal/audit/audit_log.go:146-161 | the log continues after the last given event, or from genesis if there is none |
| AuditChain.RecordKeepsSound | internal/audit/audit_log.go:167-204 | Record keeps the log a hash chain from genesis with identifiers by position, and keeps every earlier event |
| AuditChain.HashInputUnique | internal/audit/audit_log.go:272-279 | the hashed text determines every field if only Detail may hold a bar |
| AuditChain.HashedTextsAgree | internal/audit/audit_log.go:167-204 | two chained logs of any lengths and with any text in their fields that end in the same hash: they are equally long and hash the same texts position by position, or, counted from the end, agree for a k that is given and then hold the two texts of a SHA-256 collision, or one is empty and the other's last text hashes to the genesis value |
| AuditChain.TamperEvident | internal/audit/audit_log.go:167-204 | if moreover only Detail may hold a bar, the last k events themselves are equal, and so are the two logs unless they hold that collision or that text |
| AuditChain.HashInputEqualExactly | internal/audit/audit_log.go:272-279 | for any two events: same hashed text if and only if the fields agree once split at bars |
| AuditChain.BarsInIdentifiersCollide | internal/audit/audit_log.go:272-279 | moving a bar and what follows it from the agent to the task identifier changes the event and not its hash |
| AuditRestart.IdOrderExactly | internal/audit/audit_log.go:175 | text order of the identifiers is their numeric order if and only if there are at most 999,999 |
| AuditRestart.ReopenExactly | internal/audit/audit_log.go:146-161 | a log whose events are all in the table comes back unchanged if and only if it has at most 999,999 |
| AuditRestart.RestartTransparent | internal/audit/audit_log.go:146-204 | from any log and table in step, with all saves accepted and at most 999,999 events, restarts anywhere in any run of Record calls change neither events, counter nor last hash, and the table holds exactly the events |
| AuditRestart.NothingInTheClear | internal/audit/audit_log.go:146-204 | over any calls and restarts, saves accepted or not, neither log nor table holds a detail that redaction would still change |
| AuditRestart.ReopensAfterExactly | internal/audit/audit_log.go:146-204 | after any Record calls from there, reopening gives the log back if and only if every save was accepted and there are at most 999,999 events |
| AuditRestart.LostSaveReissuesId | internal/audit/audit_log.go:190-202 | after one refused save, one accepted save and a restart the log is no sound chain, and the next event gets an identifier the table holds, so that it is not saved although the database accepts |
| AuditQuery.Query | internal/audit/audit_log.go:209-260 | the page and total of the matching events |
| AuditQuery.MatchingExact | internal/audit/audit_log.go:215-237 | an event occurs among the matches as often as in the log if its agent, task, type and outcome are those asked for and its time lies from `since` through `until`, and never otherwise, whatever limit and offset |
| AuditQuery.MatchingConcat | internal/audit/audit_log.go:215-237 | the matches in the later part of a log follow those in the earlier part |
| AuditQuery.PageExactly | internal/audit/audit_log.go:237-259 | a page starts at the offset and is cut at the limit, 100 by default and 1000 at most |
| AuditQuery.PagingIsComplete | internal/audit/audit_log.go:237-259 | pages of any size from 1 to 1000 put together are exactly the matching events in insertion order, and nothing follows |
| AuditQuery.QueryAuditEvents | internal/store/sql_store.go:514-623 | the page and separate count of the selected rows, in text order of their identifiers |
| AuditQuery.QueriesAgree | internal/audit/audit_log.go:209-260 | up to 999,999 persisted events, the table query returns the page and total of the query in memory, without time filters always and with them as far as comparing the formatted times as text comes out as comparing the times |
| Handshake.BegunAndAnsweredExactly | internal/mutauth/mut_auth_hdl.go:93-190 | a handshake is begun exactly by a registered agent with a verifying token towards a registered one, and answered exactly by the agent it names, bound where bindings are kept, to the agent whose token it shows; the reply signs the nonce sent |
| Handshake.HonestHandshakeExactly | internal/mutauth/mut_auth_hdl.go:93-221 | an honest three-step exchange completes if and only if, at that moment, the responder's token still verifies, its agent is registered and the registered key is the one it signed with; both parties are then those named |
| Handshake.OtherAgentCompletes | internal/mutauth/mut_auth_hdl.go:194-221 | for every request and every other registered agent with a live token, that agent's signature over the nonce completes the handshake |
| Handshake.RewrittenRequestCompletes | internal/mutauth/mut_auth_hdl.go:126-221 | an honest reply to any request with the same nonce completes the original handshake, with the target the delivered request named |
| Handshake.ReplayRefused | internal/mutauth/mut_auth_hdl.go:194-221 | while the target has not itself answered this nonce, no response made out to it completes, recorded or put together, unless its key is forged |
| Handshake.CompletionAgrees | internal/mutauth/mut_auth_hdl.go:128-221 | a completed handshake is with the intended target if and only if the caller finds the target's name in the response; then the target answered this nonce after verifying the initiator of the request it got, or its key is forged; registration signatures by the same key are allowed for |
| Handshake.RegistrationProves | internal/identity/id_svc.go:164-188 | a proof that registration accepts means that the agent signed for this very nonce, or answered a handshake whose nonce was its bytes, or its key is forged |
| Handshake.ReplyPassesAsProof | internal/mutauth/mut_auth_hdl.go:128-190 | every handshake reply to a nonce that is the bytes of a registration nonce is such a proof, so the second case is needed |
| ConfigFile.LoadConfig | internal/cfg/configfile.go:73-90 | the scan loop returns the last MODE and ADMIN_SECRET of the file, skipping comments, blanks and other lines |
| ConfigFile.LastLineWins | internal/cfg/configfile.go:73-90 | each setting read is the one given by the last line that names it before its first "=", spaces around name and value and comment lines aside, or empty if no line does |
| ConfigFile.ParsedValuesClean | internal/cfg/configfile.go:73-90 | whatever the file holds, the values read are on one line without surrounding space |
| ConfigFile.RoundTripExactly | internal/cfg/configfile.go:73-90 | reading back what was written gives the same mode and secret if and only if both are on one line without surrounding space; "=" and "#" do not matter |

## Left out

- HTTP handlers, middleware, problem documents, metrics, logging and the command-line tool: I/O around the modelled services. The machine therefore lets any caller revoke and change apps, which admits more runs than the deployed broker; of the middleware it keeps token verification and the scope check of the launch-token routes.
- Real Ed25519, SHA-256, bcrypt, base64, JSON, RFC 3339, SPIFFE and SQLite: unseen libraries, here parameters with the laws a theorem needs. JSON is taken to read back every string, so text that is not valid UTF-8, and the difference between a nil and an empty slice, are not modelled.
- Password checks of `Authenticate` and `AuthenticateApp`: the machine's login steps stand for a successful check; an app must be registered and active.
- Integer widths: Go's 64-bit seconds, nanosecond durations and counters are unbounded integers here, and the narrowing to int of a renewal's lifetime and of the delegation depth read from a row is not modelled.
- RateLimit.RateLimiter.Allow: buckets hold reals, so rounding of Go's float64 is not modelled.
- Admin.AdminSvc.HandleCreateLaunchToken: a database error while reading the app is not modelled; the handler reports it as an unknown app.
- Identity.IdSvc.Register: audit records and metrics written along the way are not modelled, and the random instance identifier is an input that may repeat, so an agent record may be overwritten.
- Registration.NoncesUsedOnceInTime: created nonces, launch tokens and token identifiers are taken to be new each time, as random values of 16 or 32 bytes are.
- ConfigFile.LoadConfig: file permissions, symbolic links and the scanner's 64 KB line limit are not modelled; the content is given and lines are short.
- AuditQuery.QueriesAgree: with time filters it asks that the text order of the formatted times be their order, because the table compares text; the format drops trailing zeros, so the two orders can differ within a second.
- AuditQuery.QueryAuditEvents: takes the WHERE clause as a selection of rows; how the statement text is put together is not modelled.
- Heartbeat.HeartbeatMgr.Sweep: the miss rate it computes and discards, and the goroutine that calls it, are not modelled; the interval is fixed.
- Handshake.CompletionAgrees: of the discovery registry only its lookup is modelled; binding and unbinding agents is not.
- Admin.AppSvc.RegisterApp: the generated identifiers are inputs; the secret, the stored times and the author are not modelled.
- `ExpireAgents`, `UpdateAgentLastSeen`, seed tokens, listing of apps, key files, TLS and health endpoints: they would add only easy members.
- Three things the code does not promise and the model does not claim: a delegate's expiry is not bounded by its delegator's, agent-level revocation does not reach delegates, and narrowing a ceiling does not reach launch tokens already created.
