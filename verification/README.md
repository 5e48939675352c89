# Verified model of the AuthKit server, client and React packages

A Dafny model of the parts of AuthKit that keep state over time, and proofs of what they guarantee
over whole runs. `dafny verify dfyconfig.toml` checks it.

| Files | Component |
|---|---|
| `OidcArtifacts`, `RedisStore`, `DatabaseStore`, `AdapterRefinement`, `GrantRevocation`, `ArtifactContract` | the two OIDC artefact stores, their equivalence, when revoking a grant is complete, and what each call does to what is found |
| `ClientSession`, `SessionRuns`, `RefreshTokens` | the client session: login, refresh, impersonation, central revocation |
| `AccountLockout`, `LockoutBounds` | progressive account lockout and how much guessing it allows |
| `AvatarKeys`, `AccountDeletion`, `DeletionResume` | the account deletion cascade, its failures, resuming it, and what it leaves and touches |
| `AdminStats`, `ExpireScan` | the paginated readers: dashboard statistics and the inactivity scan |
| `SessionIndex`, `PermissionCache`, `AdminClients`, `Importers`, `AccountPaths` | logout index, permission cache, client administration, importers, path singleton |

Each stateful object is a class whose methods change their fields in the order the original does;
a method's contract equates the new state with a function of the old one, and the theorems are about
those functions. Three things are parameters of the model: answers of other systems (token endpoint,
account list, SCAN pages), clock reads, and drawn random values. Instants are whole seconds in the
stores and the lockout, milliseconds in the statistics and the scan.

## What the proofs found

- **A grant list can die before its tokens.** Every upsert overwrites the lifetime of the grant's list
  (`redis_adapter.ts:40`), so a short-lived access token takes a long-lived refresh token out of the reach
  of `revokeByGrantId` (section 2.1 of RFC 7009 expects tokens of a grant to end together). `GrantRevocation`
  states the exact condition for one upsert, a condition on whole runs, and the run with the default lifetimes
  that fails; `AdapterRefinement.StoresAgreeIff` states exactly when the two stores agree over a run that revokes.
- **An empty `refresh_token` replaces the kept one.** The documentation of `refreshTokens` says that the
  field may come back empty when the provider does not rotate; `maybeRefresh` falls back only for an absent field.
  Runs without such an answer are exactly those that always hold the current tokens.
- **The acting account's ip address stays in the audit log.** The documentation of `anonymizeAccount` says that
  email and ip of rows with the account as subject or actor are cleared; the code clears them for the subject only.
- **Deleting an account can delete another account's file.** The drive removes the file under whatever key the stored
  avatar URL names, and the URL is free text; `DeletionResume.OthersKeepFilesIff` states exactly when no other file goes.
- **A deletion leaves the address in places.** Failed logins and locks are recorded by address, accepted invitations
  stay, and so do files of earlier uploads; `DeletionResume` states the exact conditions.
- **A second login under one provider session takes over its sid.** The index keeps one local session per sid, so a
  logout by sid then misses the first one; `SessionIndex.IndexIsExactIff` gives the exact condition.
- **Permission keys can collide.** Components are joined with a bar and not escaped; a check has its key for itself
  exactly when none of its four components contains one.
- **The statistics stop at a barren page.** A full page without events of the window hides what is behind it; this
  happens only on logs out of order or with unreadable timestamps.
- **Clearing the permission cache does not hold back requests in flight.** Their answers are stored after the clear,
  and their late `finally` takes a newer request for the same key out of flight, so that a third one is sent.
- **`createWithSecret` accepts an empty secret and an existing id.** The first makes a confidential client without
  a secret; the second overwrites, although the documentation says it throws. `importClients` therefore overwrites
  a stored client when an untrimmed id hides it, and `update` replaces an empty secret only at the second call.
- The comments call the failure window of the lockout sliding; it is modelled as the limiter's fixed window.

## Assumed contracts

- Redis keys: SET drops a deadline, EXPIRE with a positive lifetime sets one, RPUSH keeps it, an expired key is absent,
  MULTI is atomic, and SCAN reports every live matching key at least once.
- The limiter: a counter starts a window with its first point, `block` holds a key for a time, `delete` drops both.
- The identity provider: a failed refresh consumes nothing; a successful one keeps the token, its answer carrying it
  again, an empty one or none, or replaces it by a new one; every other answer carries a new token or none.
- Nonces are new; a host that writes the live session slot does not write a nonce of this session.
- The account alias of the audit log differs from the account id.

## Model

| member | source | states |
|---|---|---|
| OidcArtifacts.RenderInjective | packages/authkit-server/src/adapters/redis_adapter.ts:19-30 | The four key families never share a name, for any two keys whose model names have no colon and are no index tag |
| OidcArtifacts.ScanMatchesOneModel | packages/authkit-server/src/adapters/redis_adapter.ts:103-116 | The scan pattern matches exactly the keys of one model, and slicing the prefix off gives the id back |
| RedisStore.RedisAdapter.Upsert | packages/authkit-server/src/adapters/redis_adapter.ts:32-54 | The transaction of up to eight commands is one state change: payload, grant list, code and uid entries, each with its deadline |
| RedisStore.RedisAdapter.Find | packages/authkit-server/src/adapters/redis_adapter.ts:56-60 | The payload of a live key, nothing for an absent or expired one |
| RedisStore.RedisAdapter.FindByUid | packages/authkit-server/src/adapters/redis_adapter.ts:62-66 | Lookup through the uid key, then by id |
| RedisStore.RedisAdapter.FindByUserCode | packages/authkit-server/src/adapters/redis_adapter.ts:68-72 | Lookup through the user code key, then by id |
| RedisStore.RedisAdapter.Consume | packages/authkit-server/src/adapters/redis_adapter.ts:74-81 | Rewrites the payload and keeps the exact deadline; no effect on an absent key |
| RedisStore.RedisAdapter.Destroy | packages/authkit-server/src/adapters/redis_adapter.ts:83-85 | Only the main key goes |
| RedisStore.RedisAdapter.RevokeByGrantId | packages/authkit-server/src/adapters/redis_adapter.ts:87-94 | The loop deletes exactly the keys on the live grant list, and the list |
| RedisStore.RedisAdapter.ReadPage | packages/authkit-server/src/adapters/redis_adapter.ts:110-117 | Reading one page of key names yields exactly the artefacts still alive under them |
| RedisStore.RedisAdapter.List | packages/authkit-server/src/adapters/redis_adapter.ts:103-121 | The cursor loop and the sort yield exactly the live artefacts of the model in the order of their ids, each once unless the scan repeats a key |
| DatabaseStore.DatabaseAdapter.Upsert | packages/authkit-server/src/adapters/database_adapter.ts:16-35 | One row per (model, id), updated or inserted, with the expiry of this call |
| DatabaseStore.DatabaseAdapter.FindByUid | packages/authkit-server/src/adapters/database_adapter.ts:49-51 | The parsed first row with that uid, whatever row comes first |
| DatabaseStore.DatabaseAdapter.FindByUserCode | packages/authkit-server/src/adapters/database_adapter.ts:53-55 | The parsed first row with that user code, whatever row comes first |
| DatabaseStore.DatabaseAdapter.Consume | packages/authkit-server/src/adapters/database_adapter.ts:57-64 | Only the payload of a live row changes |
| DatabaseStore.DatabaseAdapter.RevokeByGrantId | packages/authkit-server/src/adapters/database_adapter.ts:70-72 | Deletes the rows of the grant in every model and no other row |
| DatabaseStore.DatabaseAdapter.List | packages/authkit-server/src/adapters/database_adapter.ts:79-88 | The loop keeps exactly the live rows of the model, in the order of the query |
| AdapterRefinement.StepSimulates | packages/authkit-server/src/adapters/redis_adapter.ts:32-94 | One call on both stores keeps equal live entries with equal deadlines and sound, complete index keys, a revocation if it reaches every live artefact of its grant |
| AdapterRefinement.RevokeKeepsSameEntriesIff | packages/authkit-server/src/adapters/redis_adapter.ts:87-94 | A revocation does the same to both stores if and only if every live artefact of the grant is on its live list; otherwise some artefact is found in one of them only |
| AdapterRefinement.SimulationAnswers | packages/authkit-server/src/adapters/redis_adapter.ts:56-72 | In simulating states both stores give the same answer to find, user code, session uid and enumeration |
| AdapterRefinement.RunSimulates | packages/authkit-server/src/adapters/redis_adapter.ts:32-94 | The simulation holds after every run whose revocations reach every live artefact of their grant |
| AdapterRefinement.StoresAgreeIff | packages/authkit-server/src/adapters/redis_adapter.ts:32-121 | Over every run of all the calls, revocations included, the two stores answer alike at every point if and only if each revocation finds every live artefact of its grant on the list |
| AdapterRefinement.StoresAgree | packages/authkit-server/src/adapters/redis_adapter.ts:32-121 | Over every run of upsert, consume, destroy and clock ticks the two stores answer every lookup and enumeration alike |
| GrantRevocation.CoverageIsRevocability | packages/authkit-server/src/adapters/redis_adapter.ts:87-94 | Revocation is complete at every later instant if and only if the grant list is alive, holds every live artefact and outlives it |
| GrantRevocation.UpsertKeepsCoverageIff | packages/authkit-server/src/adapters/redis_adapter.ts:37-41 | An upsert keeps its grant revocable if and only if the lifetime it writes is not shorter than what its live siblings have left |
| GrantRevocation.OtherStepsKeepCoverage | packages/authkit-server/src/adapters/redis_adapter.ts:42-94 | No other call can make a grant unrevocable |
| GrantRevocation.AlwaysCoveredIff | packages/authkit-server/src/adapters/redis_adapter.ts:37-41 | Over every run a grant is revocable at every point if and only if each of its upserts writes a lifetime no shorter than what its live siblings have left |
| GrantRevocation.AscendingRunCovers | packages/authkit-server/src/adapters/redis_adapter.ts:37-41 | With positive lifetimes and absolute deadlines that never decrease, every live artefact is on its live grant list in every reachable state |
| GrantRevocation.RevocationComplete | packages/authkit-server/src/adapters/database_adapter.ts:70-72 | After such a run a revocation leaves no artefact of a grant of grantable models alive, in either store |
| GrantRevocation.StoresAgreeUnderRevocation | packages/authkit-server/src/adapters/redis_adapter.ts:32-121 | If each revoked grant has such deadlines up to its revocation, the stores agree over runs that revoke as well |
| GrantRevocation.RevocationSparesOtherModels | packages/authkit-server/src/adapters/redis_adapter.ts:37-41 | Over any run an artefact of a model that is not grantable survives every revocation on Redis, while the row store deletes it by its grant column |
| GrantRevocation.ShorterSecondLosesFirst | packages/authkit-server/src/adapters/redis_adapter.ts:40 | For all lifetimes: a shorter second artefact puts the first one out of the reach of a later revocation |
| GrantRevocation.DefaultLifetimesLoseTheRefreshToken | packages/authkit-server/src/define_config.ts:1538-1539 | With the default lifetimes a grant revoked after 900 s keeps its refresh token on Redis and not in the row store, in a run that meets every premise but the one on deadlines |
| ArtifactContract.UpsertIsReadBack | packages/authkit-server/src/adapters/redis_adapter.ts:32-60 | In both stores an upsert is read back exactly for its lifetime, 0 being without end |
| ArtifactContract.UpsertIsFoundByIndex | packages/authkit-server/src/adapters/redis_adapter.ts:42-72 | And exactly as long through its user code and, for a session, its uid |
| ArtifactContract.OthersStay | packages/authkit-server/src/adapters/redis_adapter.ts:32-85 | Writing, consuming or destroying one artefact changes what is found under no other |
| ArtifactContract.ConsumeStamps | packages/authkit-server/src/adapters/redis_adapter.ts:74-81 | Consuming stamps the current instant, changes nothing else, and keeps the lifetime, in both stores |
| ArtifactContract.DestroyedIsGone | packages/authkit-server/src/adapters/redis_adapter.ts:83-85 | A destroyed artefact is found no more, not by its indexes either |
| ArtifactContract.EnumerationIsFinding | packages/authkit-server/src/adapters/redis_adapter.ts:103-121 | The enumeration of a model lists exactly what can be found under it, in both stores |
| ArtifactContract.RevocationReachesModelIff | packages/authkit-server/src/adapters/redis_adapter.ts:4-10 | After any run an artefact just written under a grant dies with it on Redis if and only if its model is one of the five that the adapter names |
| ArtifactContract.RevocationReachesFromAnyState | packages/authkit-server/src/adapters/redis_adapter.ts:37-41 | For those five it does so in every state of the store |
| ArtifactContract.RowRevocationIff | packages/authkit-server/src/adapters/database_adapter.ts:70-72 | In the row store it does so if and only if its grant column names the grant, whatever the model |
| ClientSession.AuthkitClientManager.GetIdToken | packages/authkit-client/providers/authkit_client_provider.ts:78-83 | The live id token unless it is empty |
| ClientSession.AuthkitClientManager.MaybeRefresh | packages/authkit-client/providers/authkit_client_provider.ts:97-126 | New live token set exactly when a refresh is due and succeeds; binding kept, absent fields fall back |
| ClientSession.AuthkitClientManager.Impersonate | packages/authkit-client/providers/authkit_client_provider.ts:182-205 | Parks the live token set and installs the target under one nonce, or changes nothing and fails |
| ClientSession.AuthkitClientManager.StopImpersonating | packages/authkit-client/providers/authkit_client_provider.ts:236-258 | True exactly when the nonces match; restores without binding, or empties both slots, or changes nothing with nothing parked |
| ClientSession.AuthkitClientManager.IsImpersonating | packages/authkit-client/providers/authkit_client_provider.ts:265-272 | True exactly when a stop would succeed |
| ClientSession.AuthkitClientManager.EndSession | packages/authkit-client/providers/authkit_client_provider.ts:283-288 | Both slots go |
| ClientSession.AuthkitClientManager.StartSession | packages/authkit-client/providers/authkit_client_provider.ts:301-306 | The new token set is live and nothing is parked |
| ClientSession.AuthkitClientManager.HandleCallback | packages/authkit-client/src/register_oidc_client.ts:90-113 | Installs a session only for the state and code of the login in progress; a stale callback only drops that login |
| ClientSession.AuthkitClientManager.HandleLogout | packages/authkit-client/src/register_oidc_client.ts:129-135 | Reads the id token hint before both slots go |
| ClientSession.AuthkitClientManager.HandleRevocation | packages/authkit-client/src/middleware/backchannel_revocation_middleware.ts:18-39 | Ends the session exactly when the store is configured, the id token names a sid or sub, and it is revoked |
| SessionRuns.ParkedIsMinted | packages/authkit-client/providers/authkit_client_provider.ts:182-205 | Whatever is parked carries a nonce of an earlier impersonation of the same run |
| SessionRuns.MatchesIffOrigin | packages/authkit-client/providers/authkit_client_provider.ts:207-235 | The slots match if and only if the live one descends by refreshes alone from the impersonation that parked the other |
| SessionRuns.StopRestoresItsOwnActor | packages/authkit-client/providers/authkit_client_provider.ts:207-258 | Over every run mixed with host writes, a stop succeeds exactly while the live session descends by refreshes from the latest impersonation, and restores the token set that was live then; every refusal with something parked empties both slots |
| SessionRuns.ParkedMeansImpersonating | packages/authkit-client/providers/authkit_client_provider.ts:260-272 | When only the library touches the session, something is parked exactly when a stop would succeed |
| SessionRuns.HostWriteOrphansTheParkedRecord | packages/authkit-client/providers/authkit_client_provider.ts:290-300 | After any run with something parked, a host write over the live slot makes the next stop refuse and clear both slots |
| SessionRuns.NestedImpersonationForgetsTheActor | packages/authkit-client/providers/authkit_client_provider.ts:182-205 | A nested impersonation does not stack: stopping lands on the first target, and a second stop does nothing |
| SessionRuns.MatchesIffSameNonce | packages/authkit-client/providers/authkit_client_provider.ts:207-235 | Impersonation is on if and only if one non-empty nonce stands in both slots and the parked record is complete |
| SessionRuns.ImpersonationIff | packages/authkit-client/providers/authkit_client_provider.ts:182-205 | Impersonation needs a live access token and an answer; it parks the live token set and installs every field of the answer |
| SessionRuns.RevocationEndsIff | packages/authkit-client/src/middleware/backchannel_revocation_middleware.ts:18-39 | The middleware ends the session if and only if there is a store, the id token has a sid or a sub, and the store names it revoked |
| SessionRuns.PkceIsPendingLogin | packages/authkit-client/src/register_oidc_client.ts:62-113 | Over every run the PKCE slot holds exactly the latest login that no callback has consumed |
| SessionRuns.CallbackLogsInIff | packages/authkit-client/src/register_oidc_client.ts:90-113 | Over every run a callback installs a session if and only if it carries a code and the state of the login still pending; otherwise it leaves the session and drops that login |
| RefreshTokens.RunHoldsCurrentTokens | packages/authkit-client/providers/authkit_client_provider.ts:85-126 | Against a provider that rotates or keeps refresh tokens, every run leaves its current token of the live authorization in the live slot and the actor's still current one in the parked slot, each with the id token, access token and expiry of the latest answer, as long as no answer carries an empty token |
| RefreshTokens.AlwaysHoldsCurrentTokensIff | packages/authkit-client/providers/authkit_client_provider.ts:97-126 | The slots hold the current tokens at every point of a run if and only if no refresh is answered with an empty refresh_token |
| RefreshTokens.StepHoldsCurrentTokensIff | packages/authkit-client/providers/authkit_client_provider.ts:116-122 | One call keeps the current tokens in the slots if and only if it is not a refresh with an empty refresh_token |
| RefreshTokens.RefreshStoresTheAnswer | packages/authkit-client/providers/authkit_client_provider.ts:97-126 | A refresh that is due, which is within a minute of the expiry, and answered stores the access token and expiry of the answer and keeps what it leaves out; any other changes nothing |
| RefreshTokens.RefreshKeepsIdentity | packages/authkit-client/providers/authkit_client_provider.ts:116-122 | A refresh keeps binding and parked record, and a non-empty id token stays non-empty |
| RefreshTokens.KeptTokenSurvivesIff | packages/authkit-client/src/oidc_login.ts:175-182 | Against a provider that keeps the token, a refresh keeps it in the session if and only if the answer does not carry an empty refresh_token; then no later refresh happens |
| AccountLockout.KeysDistinct | packages/authkit-server/src/host/account_lockout.ts:89-97 | The three keys of any two accounts never collide |
| AccountLockout.AccountLockout.IsLocked | packages/authkit-server/src/host/account_lockout.ts:133-148 | Locked exactly while the lock lasts, with the seconds left; off without limiter, email or enabled flag |
| AccountLockout.AccountLockout.RecordFailure | packages/authkit-server/src/host/account_lockout.ts:155-190 | One step of the account automaton, no other account touched, and the audit event exactly at the transition |
| AccountLockout.AccountLockout.ClearFailures | packages/authkit-server/src/host/account_lockout.ts:197-208 | Failures and lock go, the lock count stays, no other account touched |
| LockoutBounds.RecordFailures | packages/authkit-server/src/host/account_lockout.ts:155-190 | Failures recorded at given times from a fresh start leave the account's keys in the replayed state, announce exactly the replayed locks, and touch no other account |
| LockoutBounds.FirstLockAtTheLimit | packages/authkit-server/src/host/account_lockout.ts:166-177 | Within one window the account locks with failure number maxAttempts and not before |
| LockoutBounds.UncappedTotal | packages/authkit-server/src/host/account_lockout.ts:57-66 | The first n locks last base * (2^n - 1) seconds together while none reaches the cap |
| LockoutBounds.LockoutGrows | packages/authkit-server/src/host/account_lockout.ts:57-66 | A later lock is never shorter and never above the cap, also for counts below one |
| LockoutBounds.LockoutDoublesUpToTheCap | packages/authkit-server/src/host/account_lockout.ts:57-66 | Each further lock lasts twice as long as the one before, or the cap if that is less; counts below one are as one |
| LockoutBounds.CappedExactly | packages/authkit-server/src/host/account_lockout.ts:57-66 | Below the cap a lock lasts exactly the doubled base, from there on exactly the cap |
| LockoutBounds.LockLasts | packages/authkit-server/src/host/account_lockout.ts:166-177 | A new lock is on exactly for the duration of its lock count, which counts on inside its window; the failures start over |
| LockoutBounds.LocksAreSpaced | packages/authkit-server/src/host/account_lockout.ts:155-190 | Inside one count window every lock waits for all earlier locks, and the lock count is the number of locks |
| LockoutBounds.KthLockIsLate | packages/authkit-server/src/host/account_lockout.ts:62-66 | The k-th lock comes at least the first k-1 lock durations after the first one |
| LockoutBounds.CountedFailuresBounded | packages/authkit-server/src/host/account_lockout.ts:109-190 | In T seconds with k locks at most maxAttempts * (k + T/windowSec + 1) failures are counted |
| AccountDeletion.AccountDeletionService.DropEach | packages/authkit-server/src/host/account_deletion_ops.ts:96-124 | A listing loop that fails anywhere has removed only own entries; without failure all of them, with the right count |
| AccountDeletion.AccountDeletionService.RevokeListed | packages/authkit-server/src/host/admin_sessions_service.ts:326-351 | Sessions, tokens, grants in this order, so that no token outlives its grant wherever it stops |
| AccountDeletion.AccountDeletionService.RevokeSessions | packages/authkit-server/src/host/account_deletion_ops.ts:77-93 | Complete and counted when none of its own mutations throws; otherwise only own artefacts are missing |
| AccountDeletion.AccountDeletionService.RemoveCredentials | packages/authkit-server/src/host/account_deletion_service.ts:132-159 | Tokens, passkeys, MFA and identities fail independently: each is complete, with its count, when its own mutations do not throw, whatever the others do |
| AccountDeletion.AccountDeletionService.RemoveFromOrgs | packages/authkit-server/src/host/account_deletion_ops.ts:145-156 | Own memberships and pending invitations to the address go, accepted ones stay |
| AccountDeletion.AccountDeletionService.AnonymizeAudit | packages/authkit-server/src/audit/lucid_audit_sink.ts:88-108 | Not, half or fully scrubbed; undisturbed fully, with the number of rows of both updates |
| AccountDeletion.AccountDeletionService.DeleteAvatar | packages/authkit-server/src/host/avatar_storage.ts:228-256 | The owner's file, or the file under whatever key the stored URL names, goes or stays with one call |
| AccountDeletion.AccountDeletionService.Cascade | packages/authkit-server/src/host/account_deletion_service.ts:121-185 | Each of operations 2 to 8 is complete and counted when its own mutations do not throw; with any failures the state is thinned |
| AccountDeletion.AccountDeletionService.Announce | packages/authkit-server/src/audit/lucid_audit_sink.ts:29-46 | A failing sink stops the deletion unless it swallows the error, which costs only the row; without a sink nothing can fail |
| AccountDeletion.AccountDeletionService.Delete | packages/authkit-server/src/host/account_deletion_service.ts:89-190 | The row goes last and exactly unless the announcement or its own removal throws, whatever operations 2 to 8 do, each of which is isolated; a process that dies leaves the row or nothing to clean up; undisturbed it is the clean deletion with its tally |
| DeletionResume.ScrubAbsorbs | packages/authkit-server/src/audit/lucid_audit_sink.ts:81-108 | Scrubbing after half a scrub, or twice, is scrubbing once |
| DeletionResume.OidcAgrees | packages/authkit-server/src/host/admin_sessions_service.ts:326-362 | Resuming after any interruption ends in the same sessions, grants and tokens |
| DeletionResume.InterruptedOnceIsHarmless | packages/authkit-server/src/host/account_deletion_ops.ts:15-30 | Finishing after an interrupted attempt erases what finishing at once erases |
| DeletionResume.ResumedDeletionIsClean | packages/authkit-server/src/host/account_deletion_ops.ts:15-30 | Any number of interrupted attempts and one clean run end as one clean run, up to extra scrubbed account.deleted rows |
| DeletionResume.InterruptedTouchesNoOther | packages/authkit-server/src/host/account_deletion_service.ts:89-190 | An interrupted deletion changes nothing of any other account or of nobody, but for a file of theirs that the account's URL names to the drive; an audit row about another subject changes at most in the actor id, from the deleted account to its alias |
| DeletionResume.ErasedTouchesNoOther | packages/authkit-server/src/host/account_deletion_service.ts:89-190 | The same for a completed deletion |
| DeletionResume.OthersKeepFilesIff | packages/authkit-server/src/host/avatar_storage.ts:228-256 | A completed deletion leaves every file of the others in place if and only if the account's URL does not name one of them, or the backend goes by the owner |
| DeletionResume.AvatarReportedIff | packages/authkit-server/src/host/avatar_storage.ts:228-256 | The avatar is reported as deleted if and only if the backend goes by the owner or the URL yields a key |
| DeletionResume.InterruptedKeepsFiles | packages/authkit-server/src/host/avatar_storage.ts:228-256 | Under the same condition an interrupted deletion leaves them all |
| DeletionResume.SharedUrlLosesTheFile | packages/authkit-server/src/host/account_deletion_ops.ts:158-166 | The failing input: the profile holds the public URL of another account's file |
| AvatarKeys.PublicUrlNamesItsFileIff | packages/authkit-server/src/host/avatar_storage.ts:228-243 | The public URL of a file leads back to its key if, and for a base without a query only if, the directory marker does not occur earlier in it |
| DeletionResume.DeletingAgainChangesNothing | packages/authkit-server/src/host/account_deletion_ops.ts:180-192 | Once the row is gone another deletion changes no store |
| DeletionResume.NoIdRemains | packages/authkit-server/src/host/account_deletion_service.ts:54-75 | With every capability no entry is left under the account's id and no audit row carries the id, and the log keeps its rows |
| DeletionResume.EntriesGoIff | packages/authkit-server/src/host/account_deletion_ops.ts:77-156 | A present capability leaves no entry of the account in its store, a missing one leaves them all; the revocation note is always written |
| DeletionResume.RowAfterDeletion | packages/authkit-server/src/audit/lucid_audit_sink.ts:88-100 | In every audit row subject and actor become the alias where they were the account; email and ip go exactly with the subject; kind and metadata stay |
| DeletionResume.AnnouncementAfterDeletion | packages/authkit-server/src/host/account_deletion_ops.ts:60-75 | With a sink the log grows by one row with kind, source, actor and ip of the deletion, itself scrubbed |
| DeletionResume.AnonymizedCount | packages/authkit-server/src/audit/lucid_audit_sink.ts:93-103 | The reported count is the number of rows with the account as subject plus those with it as actor, the announcement included |
| DeletionResume.RowKeepsEmailIff | packages/authkit-server/src/audit/lucid_audit_sink.ts:81-100 | An audit row keeps an email address if and only if the account is not its subject |
| DeletionResume.EmailLeavesTheLogIff | packages/authkit-server/src/audit/lucid_audit_sink.ts:81-100 | The address is gone from the log if and only if every row that held it had the account as its subject |
| DeletionResume.FailedLoginKeepsTheAddress | packages/authkit-server/src/host/account_lockout.ts:180-185 | The failing input: rows recorded with the address and no account come out unchanged |
| DeletionResume.NoInvitationRemainsIff | packages/authkit-server/src/accounts/lucid_store/organizations.ts:295-314 | No invitation to the address is left if and only if none was accepted |
| DeletionResume.NoFileRemainsIff | packages/authkit-server/src/host/avatar_storage.ts:228-256 | No file of the account is left if and only if the backend goes by the owner or each file is the one its URL names |
| DeletionResume.AddressGoesIff | packages/authkit-server/src/audit/lucid_audit_sink.ts:81-100 | A row that names the account loses its ip address if and only if the account is its subject |
| AdminStats.ReadPage | packages/authkit-server/src/host/admin_stats_service.ts:122-131 | One page yields its events of the window up to the room left, and tells whether there were none |
| AdminStats.LoadEventsInWindow | packages/authkit-server/src/host/admin_stats_service.ts:111-138 | Terminates on any sink; the result is the capped window filter of the pages read, which end at the first page with a reason to stop |
| AdminStats.InWindowSelects | packages/authkit-server/src/host/admin_stats_service.ts:124-131 | The filter keeps exactly the readable events at or after the start, in order, each with its own account and time |
| AdminStats.CapKeepsTheFirst | packages/authkit-server/src/host/admin_stats_service.ts:119-131 | The cap keeps the first of them: nothing that was dropped comes before anything kept |
| AdminStats.StopIsExactIff | packages/authkit-server/src/host/admin_stats_service.ts:119-136 | Stopping after given pages loses nothing if and only if the cap is reached or nothing unread lies in the window |
| AdminStats.ReaderIsExactIff | packages/authkit-server/src/host/admin_stats_service.ts:111-138 | On any stable log, in any order and with any timestamps, the result is the capped filter of the whole log if and only if no full page without window events, met below the cap, has events of the window behind it |
| AdminStats.EarlyStopLosesNothing | packages/authkit-server/src/host/admin_stats_service.ts:106-138 | On a stable newest-first log with readable timestamps the result is the first 10000 events of the whole filter |
| AdminStats.UnreadablePageHidesTheRest | packages/authkit-server/src/host/admin_stats_service.ts:124-133 | A first page of unreadable timestamps hides every event behind it |
| AdminStats.SeriesDays | packages/authkit-server/src/host/admin_stats_service.ts:156-163 | Thirty consecutive days that end today |
| AdminStats.WindowStart | packages/authkit-server/src/host/admin_stats_service.ts:165-169 | An instant is in the window exactly when its day is one of the thirty or later |
| AdminStats.BucketByDay | packages/authkit-server/src/host/admin_stats_service.ts:141-148 | One bar per day with exactly that day's events |
| AdminStats.BarsSumToTotalIff | packages/authkit-server/src/host/admin_stats_service.ts:141-148 | The bars sum to the number of events if and only if each lies on a day shown |
| AdminStats.OneBarEach | packages/authkit-server/src/host/admin_stats_service.ts:141-148 | Every such event is under one bar and days are distinct |
| AdminStats.WindowCountsTheLog | packages/authkit-server/src/host/admin_stats_service.ts:77-95 | The number of events reported is that of the log since the first of the 30 days, or 10000 if there are more; below that each bar and the active accounts are the log's |
| AdminStats.LoadSeries | packages/authkit-server/src/host/admin_stats_service.ts:77-95 | On a stable log the events are the capped filter exactly when no page hides any; the bars are exactly those of the events, and sum to their number when all clock reads fall on one day |
| AdminStats.ComputeAdminStats | packages/authkit-server/src/host/admin_stats_service.ts:53-99 | Totals, monthly active accounts and every bar of both series are those of the window filter, and below the cap those of the log itself: its readable events since the first of the 30 days, their accounts, and each day's; without a queryable audit all bars are empty |
| ExpireScan.VerdictMeaning | packages/authkit-server/src/commands/expire_scan_command.ts:136-156 | Expired means more than inactiveDays ago, soon means 0..warnDays days left, rounded up, and never both; an account that never logged in is active |
| ExpireScan.ExpiredAreTheLapsed | packages/authkit-server/src/commands/expire_scan_command.ts:136-143 | The expired list names exactly the lapsed accounts, in list order, with id, address and full days since |
| ExpireScan.ExpiringAreTheSoonLapsed | packages/authkit-server/src/commands/expire_scan_command.ts:144-156 | The warning list names exactly the accounts that lapse soon, with id, address and days left rounded up |
| ExpireScan.RecordKeepsSpacing | packages/authkit-server/src/commands/expire_scan_command.ts:228-251 | A record after a negative check keeps all warnings of an account a window apart |
| ExpireScan.Scanner.WarnOnce | packages/authkit-server/src/commands/expire_scan_command.ts:157-172 | Afterwards the account has a warning inside the window, and the log is still spaced |
| ExpireScan.Scanner.ScanOne | packages/authkit-server/src/commands/expire_scan_command.ts:128-175 | One account changes the report by its verdict, and is warned or counted as warned before |
| ExpireScan.Scanner.RunExpireScan | packages/authkit-server/src/commands/expire_scan_command.ts:110-198 | The page loop terminates and handles each account once; both lists are exact and warned plus deduped is the soon list in a real warning run, zero otherwise |
| ExpireScan.RunScans | packages/authkit-server/src/commands/expire_scan_command.ts:59-198 | Over any sequence of scans two warnings of one account are at least warnDays apart, and nobody on a real run's list stays unwarned |
| SessionIndex.InMemorySessionIndex.Register | packages/authkit-client/src/backchannel_logout.ts:153-160 | Adds the session under its sub and, when there is one, its sid |
| SessionIndex.InMemorySessionIndex.ScrubBuckets | packages/authkit-client/src/backchannel_logout.ts:167-169 | The deletion loop takes the session out of every bucket and drops the buckets this empties |
| SessionIndex.InMemorySessionIndex.RevokeBySid | packages/authkit-client/src/backchannel_logout.ts:162-171 | Returns the session of the sid and removes it from both maps |
| SessionIndex.InMemorySessionIndex.RevokeBySub | packages/authkit-client/src/backchannel_logout.ts:173-183 | Returns the bucket and removes it with every sid entry that points into it |
| SessionIndex.RegistrationIsExactIff | packages/authkit-client/src/backchannel_logout.ts:153-160 | One registration keeps both maps the projections of one set of triples, and every answer exact, if and only if no other session holds its sid |
| SessionIndex.StepIsExactIff | packages/authkit-client/src/backchannel_logout.ts:149-184 | The same for any call: revocations always keep an exact index exact |
| SessionIndex.IndexIsExactIff | packages/authkit-client/src/backchannel_logout.ts:149-184 | Over every run in which a session keeps its sid and sub, the index is exact at every point if and only if no registration takes a sid away from another session |
| SessionIndex.IndexIsProjection | packages/authkit-client/src/backchannel_logout.ts:126-184 | In particular the index stays exact over every run if a sid names one session |
| SessionIndex.NoEmptyBucket | packages/authkit-client/src/backchannel_logout.ts:157-169 | Without any premise no bucket is ever empty |
| SessionIndex.TakenSidLosesItsSession | packages/authkit-client/src/backchannel_logout.ts:153-171 | In any exact index, registering under another session's sid loses that session: the sid now revokes the new one alone |
| PermissionCache.KeyTellsItsComponents | packages/authkit-react/src/hooks/use_can.ts:65-67 | Equal keys have equal principal, path, permission and resource (none or empty being one) when the first three have no separator |
| PermissionCache.KeyIsOwnIff | packages/authkit-react/src/hooks/use_can.ts:65-67 | A check has its key for itself if and only if none of principal, path, permission and resource contains the separator |
| PermissionCache.BarCollides | packages/authkit-react/src/hooks/use_can.ts:65-67 | A check with the separator in any component shares its key with a different check |
| PermissionCache.CanCache.CheckCan | packages/authkit-react/src/hooks/use_can.ts:114-135 | A cached answer, the request in flight, or one new request, in this order |
| PermissionCache.CanCache.OnResponse | packages/authkit-react/src/hooks/use_can.ts:125-129 | Stores the answer under the key of the request |
| PermissionCache.CanCache.OnSettled | packages/authkit-react/src/hooks/use_can.ts:130-132 | Takes the key out of flight |
| PermissionCache.StepKeepsAnswers | packages/authkit-react/src/hooks/use_can.ts:114-135 | Each stored answer stays the response to its own key, and nothing more is awaited for it |
| PermissionCache.AnswerIsLatestResponse | packages/authkit-react/src/hooks/use_can.ts:114-132 | Over every interleaving an answer is stored for a key if and only if a request for it was answered since the last clear, and it is what the latest such response said |
| PermissionCache.AskAgain | packages/authkit-react/src/hooks/use_can.ts:114-117 | Asking again then returns that response, without a new request |
| PermissionCache.CacheDeduplicates | packages/authkit-react/src/hooks/use_can.ts:97-136 | In every interleaving without clear: one unsettled request per key, and requests sent are rejections plus one if resolved or awaited |
| PermissionCache.ClearForcesFreshAnswersIff | packages/authkit-react/src/hooks/use_can.ts:82-95 | Clearing forces fresh answers in every continuation if and only if no request is pending |
| PermissionCache.ClearKeepsDeduplicationIff | packages/authkit-react/src/hooks/use_can.ts:82-132 | After a clear every continuation keeps one unsettled new request per key at most if and only if every earlier request had settled |
| PermissionCache.QuietClearsDeduplicate | packages/authkit-react/src/hooks/use_can.ts:82-132 | With such clears only, every run keeps one unsettled request per key at most |
| AdminClients.AdminClientsService.CreateWithSecret | packages/authkit-server/src/host/admin_clients_service.ts:119-130 | Stores the built payload under the trimmed id, or the drawn one if nothing is left of it, and returns the secret it used |
| AdminClients.AdminClientsService.Update | packages/authkit-server/src/host/admin_clients_service.ts:136-168 | Merges the patch into a known client, changes no other client, refuses an unknown one |
| AdminClients.AdminClientsService.RegenerateSecret | packages/authkit-server/src/host/admin_clients_service.ts:175-187 | Only the secret of a known confidential client changes |
| AdminClients.CreatedIsCoherentIff | packages/authkit-server/src/host/admin_clients_service.ts:119-130 | A created client is coherent if and only if a confidential one is not given the empty secret |
| AdminClients.CreatedStores | packages/authkit-server/src/host/admin_clients_service.ts:204-228 | What a created client stores, field by field, with the defaults filled in |
| AdminClients.ClientsStayCoherent | packages/authkit-server/src/host/admin_clients_service.ts:100-247 | Over every run each stored client has a secret exactly when confidential, non-empty grants, the code response type exactly with authorization_code, and the session flag only with a logout uri |
| AdminClients.UpdateIsIdempotentIff | packages/authkit-server/src/host/admin_clients_service.ts:136-168 | Applying a patch twice is applying it once, whatever secrets are drawn, if and only if no client that is or becomes confidential was stored with the empty secret |
| AdminClients.PatchTouchesOnlyWhatIsSent | packages/authkit-server/src/host/admin_clients_service.ts:141-164 | Every field sent is stored and every field not sent keeps its value, the session flag as long as there is a logout uri, the secret as long as the client stays confidential |
| AdminClients.EmptyPatchIsIdentityIff | packages/authkit-server/src/host/admin_clients_service.ts:141-166 | The empty patch changes nothing if and only if the client has no metadata of other writers |
| AdminClients.RegenerationRefusedIff | packages/authkit-server/src/host/admin_clients_service.ts:175-187 | A regeneration changes nothing if and only if the client is unknown or its stored auth method is none; else only the secret |
| AdminClients.PresentedConfidentiality | packages/authkit-server/src/host/admin_clients_service.ts:230-246 | The console calls a client confidential exactly when its auth method is |
| AdminClients.PresentedShowsWhatIsStored | packages/authkit-server/src/host/admin_clients_service.ts:230-246 | Each stored list and value is shown under its own name, with the provider's default for what is not stored |
| Importers.DryCountExactIff | packages/authkit-server/src/commands/import_users.ts:96-99 | The dry count is the number of different new keys if and only if no new key repeats, and never lower |
| Importers.ImportUsers | packages/authkit-server/src/commands/import_users.ts:74-124 | Counts add up to the records and the errors are the lines of those without an email; a real run creates one account per different new email, with the profile of the first record that has it, a dry run none; existing accounts never change |
| Importers.EmailIsTrimmedText | packages/authkit-server/src/commands/import_users.ts:82-86 | The email of a record is its trimmed text, if anything is left |
| Importers.DryThenRealThenAgain | packages/authkit-server/src/commands/import_users.ts:66-124 | Dry and real counts agree exactly when no new email repeats, and a second real run creates nothing |
| Importers.ImportClients | packages/authkit-server/src/commands/import_clients.ts:43-121 | Counts add up; a real run stores the fold of the records, a dry run nothing |
| Importers.TrimmedImport | packages/authkit-server/src/commands/import_clients.ts:43-121 | With trimmed ids each new id is created once and no stored client changes |
| Importers.ImportStoresTheRecord | packages/authkit-server/src/commands/import_clients.ts:74-99 | A new record is stored field by field, its secret included, under its trimmed id or a drawn one |
| Importers.FirstClientDecides | packages/authkit-server/src/commands/import_clients.ts:43-121 | With trimmed ids every added client stores the first record with its id |
| Importers.DryAndRealClientsAgreeIff | packages/authkit-server/src/commands/import_clients.ts:74-79 | With trimmed ids a real run creates one client per different new id; the dry count agrees exactly when no new id repeats; a second real run creates nothing |
| Importers.ImportOverwritesIff | packages/authkit-server/src/commands/import_clients.ts:53-103 | Importing a record keeps every stored client if and only if its id is stored as written, or its trimmed form is empty, not stored, or stored with the very same payload |
| AccountPaths.StripPrefixIsNormal | packages/authkit-server/src/host/account_paths.ts:72-77 | A normalised prefix is the root, or starts with a slash and ends with none |
| AccountPaths.PrefixIsNormal | packages/authkit-server/src/host/account_paths.ts:72-77 | A normalised prefix starts with two slashes if and only if it was written with two and is not slashes only |
| AccountPaths.PrefixKeepsTheText | packages/authkit-server/src/host/account_paths.ts:72-77 | A normalised prefix is the trimmed text with a slash before it and without its last slashes, or the root if there is nothing else |
| AccountPaths.SegmentIsNormal | packages/authkit-server/src/host/account_paths.ts:79-85 | A normalised segment is empty or has no slash at either end |
| AccountPaths.SegmentIsTheMiddle | packages/authkit-server/src/host/account_paths.ts:79-85 | A normalised segment is the trimmed text between its edge slashes |
| AccountPaths.NormalizeFixedIff | packages/authkit-server/src/host/account_paths.ts:72-77 | Normalising again changes nothing if and only if the output has no whitespace at its edges |
| AccountPaths.AccountPathsModule.SetAccountPaths | packages/authkit-server/src/host/account_paths.ts:101-115 | Sets what was given and is not blank, keeps the rest, and leaves prefix and segments normal |
| AccountPaths.AccountPathsModule.ResetAccountPaths | packages/authkit-server/src/host/account_paths.ts:175-178 | Back to the defaults |
| AccountPaths.AccountPathsModule.AccountPath | packages/authkit-server/src/host/account_paths.ts:132-148 | The path is the prefix, a slash and the screen's segment, the root prefix counting as nothing; it starts with a slash, ends with none, and starts with two exactly when the prefix does |
| AccountPaths.PathsAreWellFormed | packages/authkit-server/src/host/account_paths.ts:95-148 | After any sequence of settings every path starts with a slash, ends with none, and starts with two if and only if the prefix in force, the last one given since the last reset, was written so |
| AccountPaths.PathIsAsConfigured | packages/authkit-server/src/host/account_paths.ts:95-148 | After any sequence of settings every path joins the prefix and the segment in force, the last ones given since the last reset or else the defaults |

## Left out

- AdapterRefinement.StoresAgree: lookups by uid are compared for the Session model and by user code for DeviceCode, the models that use them; the other models have no such index on Redis.
- AdapterRefinement.StoresAgree: whole seconds only; below a second the rounding of TTL in `consume` moves the Redis deadline by up to one second.
- GrantRevocation.StoresAgreeUnderRevocation: only artefacts of grantable models carry a revoked grant; RevocationSparesOtherModels states how the stores differ for the others.
- RedisStore.RedisAdapter.List: the locale's order is a parameter; glob characters in the prefix are not modelled.
- ClientSession.AuthkitClientManager.MaybeRefresh: one atomic step; a second request of the same session between its awaits is not modelled.
- AccountLockout.AccountLockout.RecordFailure: one atomic step without limiter errors; the email normalisation is a parameter.
- AccountDeletion.AccountDeletionService.Cascade: the stores change as values, one removal at a time; a process death is a point from which every later mutation fails. Clients or users acting at the same time are not modelled.
- AccountDeletion.AccountDeletionService.RevokeSessions: revocation by grant is the row store's; revocation notes are a set of accounts without timestamps; artefact expiry is not modelled.
- AccountDeletion.AccountDeletionService.DeleteAvatar: backend resolution is a flag, and a drive that is not installed counts as no upload support.
- AdminStats.SeriesDays: days are numbered; their rendering as ISO dates is not modelled. The counts of users and of active sessions are passed through by the original and left out.
- ExpireScan.Scanner.RunExpireScan: the account list is stable during a scan, audit calls succeed, and the enabled flag and configuration lookup before the loop are not modelled.
- SessionIndex.InMemorySessionIndex.RevokeBySub: the order of the returned session ids is not modelled.
- Importers.ImportUsers: store errors and stores without import support are not modelled; file parsing is a pure split that would only add easy members.
- JWT validation, hashing, random generation, HTTP, mail and WebAuthn are foreign code.
- React hooks other than the cache, controllers, views, configuration resolvers and the SDK drivers would only add one-branch facts.
