# Verified core of the backend's RBAC cache, sessions, lockout and purge

This project models four stateful parts of the NestJS backend in Dafny and proves what they promise
over every run. `dafny verify dfyconfig.toml` checks everything. Nothing here was executed; the proofs
are about the model, and the table below says which lines each statement is about.

**RBAC permission cache** (`Rbac*.dfy`). The tables with their foreign keys and the join that yields a
role's `feature:action` strings are values (`RbacTables`); the administrative services are classes
over a database object (`RbacAdmin`); one process's `RbacService` is a class whose methods are the code
between two awaits (`RbacCacheService`). `RbacProtocol` interleaves any number of processes, calls, fetches
and mutations: every await is a scheduling point, epoch reads and row reads may fail, a cache lookup
may always miss, writes land late and on each tier separately. `RbacInvariants` and `RbacSteps` hold the
invariant and its preservation, `RbacTheorems`, `RbacCrossProcess` and `RbacFlight` the results on
safety. `RbacMutations` says, row by row, what each administrative mutation leaves in the tables and tells
the cache; `RbacLookups` says what a lookup and an invalidation achieve when they run: who gets rows, who
gets an exception, what is cached, and that a second lookup makes no query.

**Sessions and tokens** (`Session*.dfy`, `AuthServices.dfy`, `Refresh*.dfy`, `Split*.dfy`). `Sessions`
gives every service operation as a function on rows, denylist, signed tokens, accounts and the cached
copies of user rows in every process's memory tier and in the shared tier; a run is any sequence of
operations, in any processes, with any delays between and inside them. The classes of `AuthServices`
are proved to perform exactly these steps, so the theorems over runs hold of any sequence of calls.
`RefreshLock` splits the refresh of one token into its statements and interleaves any number of them;
`RefreshProgress` shows that one that is not interrupted ends, as the whole refresh. `SessionAnswers` says
for every operation when each answer is given, and every field it changes, with its value.
`SplitLogin` splits login at the password comparison, `SplitRefresh` a refresh at its decision, while a
bulk revocation waits for its row lock. `CacheTiers` names processes and tiers for both halves of the project.

**Cached user rows** (`UserCache.dfy`, `SessionCache.dfy`). `UserCache` interleaves row updates, cache deletes,
row reads and cache writes of any number of requests in any number of processes, each its own event;
`SessionCache` shows that the operations of `Sessions` are such interleavings with nothing between their parts.

**Account lockout** (`Users.dfy`, overlapping guesses in `GuessesInFlight.dfy`, guesses over whole runs in
`SessionAccounting.dfy`).

**Batch purge** (`PurgeJob.dfy`, and its invisibility in `SessionPurge.dfy`).

Results that differ from what one might expect:

- `docs/en/authentication.md:36` says reuse of any revoked token revokes all sessions. The code exempts
  tokens that were rotated (`src/auth/auth.service.ts:211-214`, and the test at
  `src/auth/auth.service.spec.ts:414`); the model follows the code.
- "An inactive user has no unrevoked session" is false when `setActive` writes the row and its cache
  delete then throws: revocation is skipped. `InactiveCleanIff` says exactly which step breaks the rule,
  `InterruptedDeactivationLeavesSessions` gives a run, and the rule is proved for all runs without such a step.
- The cached user row is not invisible. A deactivation handled by one process, all its writes arriving, leaves
  an active copy in the memory tier of another, which goes on accepting tokens that nothing denylists
  (`StaleInAnotherProcess`); and even in a single process a validation that read the row before the deactivation
  may write it to the cache after the delete (`DeactivationDuringValidation`). `CoherenceIff` says exactly which
  events leave a stale copy, in a single process only such late writes do (`OneProcessCoherentIff`), and
  `VerdictIsUncachedIff` says exactly when a copy matters. A copy is at most 30 seconds old, plus the time a
  validation takes between read and write, unless the cache library promotes copies between tiers
  (`AcceptedRowsAreRecent`).
- A deactivation that fits into the password comparison of a login leaves the inactive user with the session
  that login opens: the row is not looked at again. `SplitLoginCleanIff` says exactly when the rule survives.
- Logout-all, a password change or a deactivation does not revoke the session that a concurrent refresh inserts
  while the bulk update waits for its row lock. `WaitingRevocationCleanIff` and `WaitingDeactivationCleanIff` say
  exactly when the user ends with no unrevoked session.
- Overlapping logins pass the lock test before any of them records a failure, so five wrong guesses are not a
  bound for them: with at most k in flight it is 4 + k, and k more per lock period (`OverlappingGuessBound`).
- A permission lookup reflects the invalidations completed in other processes if and only if it is an own
  fetch or a hit whose epoch read succeeded (`VisibleAcrossProcessesIff`); after a failed read, or joining a
  fetch already under way, it may be older, and two runs show it.
- The holder lookup and the delete of `PermissionService.remove` are two statements. `StaleHolderListCoversIff`
  says exactly when the invalidation list is still right, for all feature keys; `AssignmentSlipsPastRemoval` gives a counterexample.
- `feature:action` strings identify their pair exactly when no feature key is another key followed by a colon.
- Error texts in `src/modules/rbac/services/permission.service.ts:70` and
  `src/modules/rbac/services/feature.service.ts:77` suggest that deletes with dependants fail; the schema cascades, and
  the model follows the schema. `docs/en/rbac.md:27` mentions a `granted` column that
  `src/migrations/1740400000004-DropRolePermissionGranted.ts:7` drops.

## Model

| member | source | states |
|---|---|---|
| RbacTables.EncodingInjectiveIff | src/modules/rbac/repositories/role-permission.query.ts:16 | `feature:action` is injective on a set of keys if and only if no key extends another by a colon; keys without colons are a special case |
| RbacTables.ColonKeyAmbiguous | src/modules/rbac/repositories/role-permission.query.ts:16 | two different pairs with the same string, once a key contains a colon |
| RbacTables.GrantedIffChain | src/modules/rbac/repositories/role-permission.query.ts:4-17 | a string is among a role's rows exactly when one role-permission, permission, feature chain spells it |
| RbacTables.UncachedCheckIsChains | src/modules/rbac/services/rbac.service.ts:83-96 | an uncached check is true exactly when the list is non-empty and each pair has its own chain, for any order and repetition |
| RbacTables.ApplyKeepsValid | src/migrations/1707764400000-InitialRbacSchema.ts:96-107 | every administrative mutation keeps foreign keys and unique indexes, cascades included |
| RbacTables.MutationsCoverTheirEffect | src/modules/rbac/services/role.service.ts:92-151 | for every mutation, a role whose strings change is among the roles it invalidates; paths without a bump change no role |
| RbacTables.RemovalChangesExactlyHolders | src/modules/rbac/services/permission.service.ts:64-73 | deleting a permission changes precisely its holders that do not get the same string from another permission; with unambiguous keys precisely its holders |
| RbacTables.StaleHolderListCoversIff | src/modules/rbac/services/permission.service.ts:65-72 | a holder list looked up before other changes covers the deletion if and only if every role that gained the permission since gets its string elsewhere; hence if none gained it, and with unambiguous keys only then |
| RbacTables.AssignmentSlipsPastRemoval | src/modules/rbac/services/permission.service.ts:65-72 | an assignment between lookup and delete loses a string without any bump |
| RbacMutations.AssignPermissionsDoes | src/modules/rbac/services/role.service.ts:130-157 | succeeds if and only if role and permissions exist; then the role holds exactly the requested permissions, every other role's grants and all other tables are as before, and the role is invalidated |
| RbacMutations.AssignedStrings | src/modules/rbac/services/role.service.ts:136-153 | after an assignment the role's strings are exactly those of the requested permissions, whatever it held before |
| RbacMutations.CreateFeatureDoes | src/modules/rbac/services/feature.service.ts:21-34 | adds the row as requested unless its key is taken; nothing else changes and nothing is invalidated |
| RbacMutations.UpdateFeatureDoes | src/modules/rbac/services/feature.service.ts:64-70 | exactly the given fields change; refused if and only if the row is missing or the new key is another row's; every role is invalidated |
| RbacMutations.RemoveFeatureDoes | src/modules/rbac/services/feature.service.ts:72-80 | exactly the feature, its permissions and their grants go, and every role is invalidated |
| RbacMutations.CreatePermissionDoes | src/modules/rbac/services/permission.service.ts:24-36 | adds the row unless its feature is missing or already has the action; nothing else changes |
| RbacMutations.UpdatePermissionDoes | src/modules/rbac/services/permission.service.ts:55-62 | only the name can change, and exactly the roles with a grant of the permission are invalidated, without any there is no bump |
| RbacMutations.RemovePermissionDoes | src/modules/rbac/services/permission.service.ts:64-73 | exactly the permission and its grants go, and exactly the roles that had one are invalidated |
| RbacMutations.CreateRoleDoes | src/modules/rbac/services/role.service.ts:27-48 | adds the row unless the name is taken; nothing else changes |
| RbacMutations.UpdateRoleDoes | src/modules/rbac/services/role.service.ts:78-110 | exactly the given fields change; refused if and only if the role is missing or the name is another role's; the role is invalidated if and only if the request carries isActive |
| RbacMutations.RemoveRoleDoes | src/modules/rbac/services/role.service.ts:112-128 | refused if and only if the role is missing or a user holds it; else exactly the role and its grants go |
| RbacAdmin.FetchRoleIdsForPermission | src/modules/rbac/repositories/role-permission.query.ts:19-31 | returns exactly the distinct roles holding the permission |
| RbacAdmin.RoleService.Update | src/modules/rbac/services/role.service.ts:78-110 | not found, conflict, or the renamed row; a bump only when `isActive` is given; errors change nothing |
| RbacAdmin.RoleService.Remove | src/modules/rbac/services/role.service.ts:112-128 | refused while users hold the role, else role and grants go and the role is invalidated |
| RbacAdmin.RoleService.AssignPermissions | src/modules/rbac/services/role.service.ts:130-157 | the grants become exactly the requested ones, or nothing changes on a bad permission id |
| RbacAdmin.PermissionService.Update | src/modules/rbac/services/permission.service.ts:55-62 | the row changes and exactly the holders are invalidated, none meaning no bump |
| RbacAdmin.PermissionService.Remove | src/modules/rbac/services/permission.service.ts:64-73 | the permission and its grants go; the holders before the delete are invalidated |
| RbacAdmin.FeatureService.Update | src/modules/rbac/services/feature.service.ts:64-70 | the row changes and every role is invalidated, or the unique key refuses it |
| RbacAdmin.FeatureService.Remove | src/modules/rbac/services/feature.service.ts:72-80 | feature, permissions and grants cascade away and every role is invalidated |
| RbacCacheService.OnEpochRead | src/modules/rbac/services/rbac.service.ts:49-59 | a stored number becomes the local epoch and is used; null or a failed read changes nothing and the local epoch is used |
| RbacCacheService.Forget | src/modules/rbac/services/rbac.service.ts:102-106 | exactly the registrations of covered roles are dropped |
| RbacCacheService.RbacService.GetGlobalEpoch | src/modules/rbac/services/rbac.service.ts:44-60 | adopts the shared epoch, or falls back to the local one |
| RbacCacheService.RbacService.BumpGlobalEpoch | src/modules/rbac/services/rbac.service.ts:62-77 | adopts the number INCR returned, or counts locally without Redis or when INCR throws |
| RbacCacheService.RbacService.ResumeAfterProbe | src/modules/rbac/services/rbac.service.ts:115-149 | serves an entry of the current epoch, else joins, else registers its own fetch with an epoch snapshot |
| RbacCacheService.RbacService.ResumeAfterRows | src/modules/rbac/services/rbac.service.ts:134-146 | an entry is written back only if the epoch did not move, tagged with the epoch read before; the registration goes |
| RbacCacheService.RbacService.ResumeAfterFailure | src/modules/rbac/services/rbac.service.ts:144-146 | a failed fetch unregisters its role |
| RbacCacheService.RbacService.ClearRoleCacheKey | src/modules/rbac/services/rbac.service.ts:102-106 | drops the registration of one role |
| RbacCacheService.RbacService.ClearRoles | src/modules/rbac/services/rbac.service.ts:159-166 | the loop drops exactly the listed roles' registrations |
| RbacCacheService.RbacService.ClearAll | src/modules/rbac/services/rbac.service.ts:173-181 | drops every registration |
| RbacCacheService.CheckPermissions | src/modules/rbac/services/rbac.service.ts:83-96 | true exactly when the role is named, the list is non-empty, the fetch succeeded and every string is granted |
| RbacSteps.StepKeepsInv | src/modules/rbac/services/rbac.service.ts:108-181 | every action of every process keeps the protocol invariant, and history only grows |
| RbacTheorems.CachedEntriesIncludeTheirEpoch | src/modules/rbac/services/rbac.service.ts:108-151 | in every interleaving an entry tagged e, in any tier, holds the role's strings of a version including every mutation whose bump returned at most e |
| RbacTheorems.QuiescentEntriesAreFresh | src/modules/rbac/services/rbac.service.ts:83-117 | with no mutation between commit and bump, an entry of the current epoch is the fresh join and decides alike |
| RbacTheorems.CompletedWritesAreVisible | src/modules/rbac/services/rbac.service.ts:122-150 | a call that starts after an invalidation returned never yields an older value: in that process on all paths, elsewhere on own fetch and on a hit with a successful epoch read |
| RbacTheorems.JoinedValuesAreNoOlderThanTheirFetch | src/modules/rbac/services/rbac.service.ts:122-124 | a joined value is no older than the registration of its fetch, and a registered fetch began after the last completed invalidation of its role there |
| RbacTheorems.WriteBacksSurviveKnownBumps | src/modules/rbac/services/rbac.service.ts:127-140 | no write-back is older than a mutation whose bump the process already knows of |
| RbacCrossProcess.VisibleAcrossProcessesIff | src/modules/rbac/services/rbac.service.ts:108-151 | a path never yields a value older than an invalidation completed in any process before the call if and only if it is an own fetch or a hit with a successful epoch read |
| RbacCrossProcess.UntrustedHitCanBeStale | src/modules/rbac/services/rbac.service.ts:55-59 | for all tables and every role in them, a reachable hit after a failed epoch read that is older than a mutation completed in another process |
| RbacCrossProcess.JoinedValueCanBeStale | src/modules/rbac/services/rbac.service.ts:122-124 | for all tables and every role in them, a reachable joined value older than a mutation completed in another process |
| RbacFlight.FetchesInFlightAreBounded | src/modules/rbac/services/rbac.service.ts:122-149 | per process and role at most one fetch more than completed invalidations is in flight, and a registered fetch is in flight |
| RbacLookups.ReturnAnswersIff | src/modules/rbac/services/rbac.service.ts:122-150 | a lookup waiting for a fetch gets the rows, as its own exactly if it started the fetch, if and only if the fetch resolved, and the exception if and only if it was rejected; else it goes on waiting |
| RbacLookups.LookupsThrowOnlyOnFailure | src/modules/rbac/services/rbac.service.ts:127-150 | over every run, a lookup throws only if the database failed a fetch of its role in its process |
| RbacLookups.RowsAreCurrent | src/modules/rbac/services/rbac.service.ts:129-132 | a query returns exactly the strings of the tables of that moment |
| RbacLookups.RowsAreWrittenBackIff | src/modules/rbac/services/rbac.service.ts:134-146 | the rows go to the process's own tier, and with Redis to the shared one, under the epoch read before, if and only if the epoch did not move; the role is unregistered either way |
| RbacLookups.FailureUnregisters | src/modules/rbac/services/rbac.service.ts:144-146 | a failed query rejects its fetch and unregisters the role, so the next lookup makes its own |
| RbacLookups.MutationTakesEffect | src/modules/rbac/services/role.service.ts:136-156 | a mutation that succeeds is the newest version of the tables, and its invalidation, if it asks for one, is to come; a refused one changes nothing |
| RbacLookups.ColdLookup | src/modules/rbac/services/rbac.service.ts:108-151 | a lookup that finds neither an entry nor a fetch, and runs to its end, returns the present strings of the role and caches them under the current epoch |
| RbacLookups.ReachableIsReady | src/modules/rbac/services/rbac.service.ts:44-60 | in every reachable state that is so of every process with no reply on its way |
| RbacLookups.WarmLookup | src/modules/rbac/services/rbac.service.ts:112-117 | with an entry of the current epoch in the tier that answers, the lookup returns its strings without a query |
| RbacLookups.SecondLookupHits | src/modules/rbac/services/rbac.service.ts:112-142 | once the first lookup's write has landed, the next one in the process returns the same strings and makes no query |
| RbacLookups.MissJoins | src/modules/rbac/services/rbac.service.ts:122-124 | with a fetch registered, a lookup that misses or finds an older epoch makes no query but waits for that fetch |
| RbacLookups.InvalidationCompletes | src/modules/rbac/services/rbac.service.ts:153-181 | an invalidation that runs to its end raises the epoch by one, adopts it, and drops exactly the registrations it covers |
| RbacLookups.ReachableCanInvalidate | src/modules/rbac/services/rbac.service.ts:62-77 | in every reachable state every committed mutation of a process with no reply on its way can run to that end |
| Users.UsersService.RecordFailedLogin | src/users/users.service.ts:83-100 | counts, locks from the fifth failure unless a lock runs, drops the cached copies in reach; a missing or deleted user changes nothing |
| Users.UsersService.ResetFailedLogin | src/users/users.service.ts:102-108 | counter and deadline are cleared, nothing else in any row changes |
| Users.UsersService.UpdatePassword | src/users/users.service.ts:110-116 | the password is replaced and the cached copies in reach dropped |
| Users.UsersService.SetActive | src/users/users.service.ts:118-122 | the flag is set, the cached copies in reach dropped, and the number of rows returned |
| Users.UsersService.InvalidateUserCache | src/users/users.service.ts:34-36 | empties the caller's memory tier and, if it answers, the shared one, and reports whether it threw; other processes' tiers stay |
| Users.GuessBound | src/users/users.service.ts:83-100 | non-overlapping wrong guesses reach the comparison at most 5 + (b-a)/15 min times between a and b, from any counter and deadline |
| Users.GuessBoundIsTight | src/users/users.service.ts:88-95 | the bound is attained for every number of lock periods |
| GuessesInFlight.OverlappingGuessBound | src/auth/auth.service.ts:148-154 | wrong guesses of which at most k are in flight at once reach the comparison at most 4 + k + k * (b-a)/15 min times between a and b, from any counter and deadline |
| GuessesInFlight.OverlappingGuessBoundIsTight | src/users/users.service.ts:88-95 | the bound is attained for every k and every number of lock periods |
| GuessesInFlight.InTurnIsOneAtATime | src/auth/auth.service.ts:148-154 | guesses that do not overlap are the case of one in flight |
| Users.FifthFailureLocks | docs/en/authentication.md:45 | on any account that is not locked, an expired lock included, a wrong guess locks if and only if it is at least the fifth since the last success, for exactly 15 minutes; during a lock the deadline stays |
| SessionInvariants.FindByHashIsExact | src/auth/auth.service.ts:200-203 | hashes are unique in every reachable table, so the lookup finds the token's row if it is stored |
| SessionInvariants.StepKeepsInv | src/auth/auth.service.ts:137-465 | every operation keeps fresh tokens, their expiry order and the rotation graph |
| SessionInvariants.OwnerActionsOnlyRevoke | src/auth/auth.service.ts:427-465 | logout, logout-all, password change and (de)activation sign nothing and at most revoke rows of their own user |
| SessionInvariants.RotationGraph | src/auth/auth.service.ts:291-309 | over all runs with purges: links are mutual inverses, chains are unbranched, acyclic and of one user, rows with a successor are revoked |
| SessionTheorems.FirstPresentationDecides | src/auth/auth.service.ts:187-269 | after any outcome of presenting a token, it never succeeds again in any continuation |
| SessionTheorems.RefreshTouchesWhatItSays | src/auth/auth.service.ts:211-309 | each answer of refresh determines the change to the table: one rotation, one counted bulk revocation although refused, or nothing |
| SessionTheorems.BulkRevocationIsExact | src/auth/auth.service.ts:92-113 | on reuse, denial, logout-all, password change and deactivation the user ends with no unrevoked session; earlier revocations and other users are untouched |
| SessionTheorems.RevokedAccessTokensStayRefused | src/auth/auth.service.ts:76-89 | with denylist writes arriving, access tokens of then-unrevoked sessions are refused at all later times |
| SessionTheorems.OwnAccessTokenStaysRefused | src/auth/auth.service.ts:451-465 | after a logout that went through, its own access token is refused at all later times |
| SessionTheorems.LoggedOutTokenIsSpent | src/auth/auth.service.ts:115-129 | after a logout that went through, the user's refresh token it names is never exchanged again |
| SessionAccounting.CountAfterStep | src/auth/auth.service.ts:115-129 | a login adds one unrevoked session, a refresh keeps the number exactly, a logout lowers it by at most one, nothing else raises it |
| SessionAccounting.SessionsNeverExceedLogins | src/auth/auth.service.ts:370-381 | in every run unrevoked sessions never outnumber successful logins since the last bulk revocation |
| SessionAccounting.InactiveCleanIff | src/modules/rbac/services/user-admin.service.ts:12-25 | a step leaves an inactive user with an unrevoked session if and only if it is a deactivation of such a user whose cache delete fails |
| SessionAccounting.InactiveUsersHaveNoSessions | src/modules/rbac/services/user-admin.service.ts:17-23 | in all runs without such a step inactive users have no unrevoked session, even when denylisting fails |
| SessionAccounting.InactiveGainsNothing | src/auth/auth.service.ts:243-268 | whatever fails, an inactive user gains no session by any operation |
| SessionAccounting.InterruptedDeactivationLeavesSessions | src/users/users.service.ts:118-122 | a run in which the failing cache delete leaves an inactive user with a session |
| SessionAccounts.StepAccounts | src/users/users.service.ts:83-122 | every operation's whole effect on accounts and copies is one row update, one registration or one cache fill |
| UserCache.VerdictIsUncachedIff | src/auth/strategy/jwt.strategy.ts:46-65 | in any state a process judges a live token as without the cache if and only if it is not served a copy whose gate fields differ from the stored row |
| UserCache.DeadTokensNeedNoCache | src/auth/strategy/jwt.strategy.ts:35-44 | every other token is refused without the cache playing a part |
| UserCache.CoherenceIff | src/users/users.service.ts:34-36 | in any interleaving of requests split at their awaits, an event leaves a stale copy of a user no update of whom is under way if and only if it writes a row to the cache that has changed since its read, or is the last delete under way and misses a copy in another process or in a shared tier that does not answer |
| UserCache.StaysCoherentIff | src/users/users.service.ts:34-36 | the copies are coherent after every event of a run if and only if none of its events is of these two kinds |
| UserCache.CachedVerdictIsUncachedVerdict | src/auth/strategy/jwt.strategy.ts:39-65 | after all such runs the copies change no verdict in any process for a user no update of whom is under way, whatever tokens and denylist are, and a token is accepted exactly under the stated conditions on the stored row |
| UserCache.SplitValidationCoherentIff | src/auth/strategy/jwt.strategy.ts:47-54 | with any events between its row read and its cache write, a validation keeps the copies coherent throughout if and only if none of them leaves a stale copy and the row is then still the stored one, or an update of the user still has its delete to come |
| UserCache.DeactivationDuringValidation | src/auth/strategy/jwt.strategy.ts:49-53 | in one process with every delete arriving, a deactivation between row read and cache write leaves every live token of the user accepted, refused without the cache |
| UserCache.OneProcessCoherentIff | src/config/cache-stores.factory.ts:71-74 | in a single process with working deletes the copies stay coherent if and only if no validation writes a row late that has changed since it read it |
| UserCache.AcceptedRowsAreRecent | src/auth/strategy/jwt.strategy.ts:46-58 | in every interleaving, in every process and whatever deletes fail, an accepted row was stored, active and unlocked, less than 30 seconds plus the longest delay between read and write plus the longest life of a promoted copy ago |
| UserCache.ReadRowsWereStored | src/auth/strategy/jwt.strategy.ts:49-53 | the row a validation reads and goes on with was the stored one at the time of the read or later |
| UserCache.DeactivationBitesWithinThirtySeconds | src/auth/strategy/jwt.strategy.ts:46-58 | in every interleaving and process and whatever fails, an inactive user's access tokens are refused from 30 seconds plus these two times on |
| SessionCache.OperationIsEvents | src/users/users.service.ts:83-122 | every operation is, to accounts and cached copies, its update and delete, or its lookup and writes, with nothing in between |
| SessionCache.RunIsEvents | src/auth/strategy/jwt.strategy.ts:46-54 | so every run of operations is one of the interleavings |
| SessionCache.RunEventsArePrompt | src/auth/strategy/jwt.strategy.ts:48-54 | and in it no cache write is delayed, so the bounds on the age of copies hold with delay 0 |
| SessionCache.OperationCoherentIff | src/users/users.service.ts:34-36 | from coherent tiers a whole operation, its parts not interleaved with others, leaves a stale copy if and only if it changes a row of which an unexpired copy sits out of its delete's reach |
| SessionCache.OneProcessVerdictIsUncached | src/config/cache-stores.factory.ts:71-74 | over runs of whole operations, a validation's row read and cache write being one step, the copies change no verdict in a single process with working deletes |
| SessionCache.StaleInAnotherProcess | src/users/users.service.ts:118-122 | a run in which a deactivation whose every write arrives leaves another process accepting the user's token, refused without the cache |
| SplitLogin.HalvesMakeLogin | src/auth/auth.service.ts:142-171 | the reading and the acting half of login make up the login step |
| SplitLogin.SplitLoginCleanIff | src/auth/auth.service.ts:142-171 | with any operations between its halves, a login keeps "no session for inactive users" if and only if it fails or the last (de)activation in between was an activation |
| SplitLogin.DeactivationDuringComparison | src/auth/auth.service.ts:153-171 | a deactivation during the password comparison leaves the inactive user with the session the login opens |
| SplitLogin.GuessIsSplitLogin | src/auth/auth.service.ts:148-154 | an overlapping guess passes when the reading half of its login admits it, and records what the acting half of a failing login does |
| SplitRefresh.HalvesMakeRefresh | src/auth/auth.service.ts:209-309 | the decision to exchange the row and the writes that follow make up the transaction |
| SplitRefresh.AloneIsRefresh | src/auth/auth.service.ts:209-309 | a refresh decided and committed by itself is the transaction, or nothing if that does not renew the session |
| SplitRefresh.WaitingRevocationCleanIff | src/auth/auth.service.ts:106-111 | with any refreshes deciding, committing and rolling back while a bulk revocation waits for their row locks, its user ends with no unrevoked session if and only if none of the user's own refreshes commits meanwhile |
| SplitRefresh.WaitingDeactivationCleanIff | src/modules/rbac/services/user-admin.service.ts:12-25 | a deactivation, the refreshes past their decision committing, ends with no unrevoked session if and only if none of them is of one of the user's tokens |
| SplitRefresh.DeactivationDuringRefresh | src/auth/auth.service.ts:291-309 | the run: from any state, a refresh past its decision leaves the deactivated user with exactly the session it inserts |
| SessionAccounting.GuessesAreBounded | src/auth/auth.service.ts:148-171 | over whole runs, with anything else happening, guesses on one account without a success stay within 5 + (b-a)/15 min |
| SessionAccounting.SuccessRestoresGuesses | src/users/users.service.ts:102-108 | a correct password clears counter and lock and leaves every other field of the account, even if its cache delete fails |
| AuthServices.AuthService.BuildTokenPair | src/auth/auth.service.ts:55-74 | a fresh pair, expiring after 15 minutes and 7 days, and the row's expiry |
| AuthServices.AuthService.DenylistActiveAccessJtis | src/auth/auth.service.ts:76-89 | exactly the reachable writes for the user's unrevoked sessions are made, for 15 minutes; success means all arrived |
| AuthServices.AuthService.RevokeAllUserSessions | src/auth/auth.service.ts:92-113 | all unrevoked rows of the user are revoked whether or not denylisting works, and their number is returned |
| AuthServices.AuthService.RevokeSessionByRefreshHash | src/auth/auth.service.ts:115-129 | only an unrevoked row of this user with this hash is revoked |
| AuthServices.AuthService.CreateTokensAndSession | src/auth/auth.service.ts:365-381 | one new row without predecessor carrying the pair |
| AuthServices.AuthService.Login | src/auth/auth.service.ts:137-172 | is exactly one login step of the state machine, answer included |
| AuthServices.AuthService.LoginAt | src/auth/auth.service.ts:142-171 | the same between its two clock readings: lock checked at the start, failure recorded or session created at the end |
| AuthServices.AuthService.VerifyRefreshToken | src/auth/auth.service.ts:187-195 | refuses bad or expired tokens and access tokens |
| AuthServices.AuthService.Refresh | src/auth/auth.service.ts:174-318 | is exactly one refresh step of the state machine, answer included |
| AuthServices.AuthService.RefreshAt | src/auth/auth.service.ts:187-207 | the same between its two clock readings |
| AuthServices.AuthService.ExchangeRow | src/auth/auth.service.ts:209-317 | the transaction body: every refusal and the rotation, with the rows they leave |
| AuthServices.AuthService.ChangePassword | src/auth/auth.service.ts:427-449 | is exactly one password change step, all sessions revoked |
| AuthServices.AuthService.Logout | src/auth/auth.service.ts:451-458 | is exactly one logout step; a failed denylist write ends it |
| AuthServices.AuthService.LogoutAll | src/auth/auth.service.ts:460-465 | is exactly one logout-all step |
| AuthServices.AuthService.ListSessions | src/auth/auth.service.ts:467-484 | returns a listing in the sense of SessionAnswers.ListingIff |
| AuthServices.UserAdminService.SetUserActive | src/modules/rbac/services/user-admin.service.ts:12-25 | is exactly one (de)activation step |
| AuthServices.JwtStrategy.Validate | src/auth/strategy/jwt.strategy.ts:28-69 | is exactly one validation step, with its verdict |
| AuthServices.JwtStrategy.Get | src/auth/strategy/jwt.strategy.ts:47 | the process's own tier answers first, then the shared one, with or without promotion |
| AuthServices.JwtStrategy.ValidateUser | src/auth/strategy/jwt.strategy.ts:46-68 | the served or stored row, the latter written to both tiers for 30 seconds, passes the activity and lock gate |
| SessionAnswers.UnverifiedRefreshAnswers | src/auth/auth.service.ts:187-207 | a token that does not verify, is an access token, or has no row is refused with the answer for its case, and nothing changes |
| SessionAnswers.RefreshAnswers | src/auth/auth.service.ts:211-289 | in every reachable state the answer to a verified token with a row is decided by row and account: already rotated, reuse, expired, missing, deleted, inactive, locked, or refreshed, each if and only if its condition holds |
| SessionAnswers.RefreshRenews | src/auth/auth.service.ts:291-309 | a refresh that succeeds inserts one row with the request's ip and user agent, created now, expiring 604800000 ms later, signs its pair, and revokes and links the old row; every other row is as it was |
| SessionAnswers.RefreshSweeps | src/auth/auth.service.ts:215-289 | on reuse or a barred account exactly the user's unrevoked rows are revoked, exactly their tokens are denied as far as the writes arrive, and the number of sessions is reported |
| SessionAnswers.RevokeAllDoes | src/auth/auth.service.ts:76-113 | a bulk revocation revokes exactly the user's unrevoked rows, and the denylist changes only for their tokens and the caller's own, by 900000 ms |
| SessionAnswers.LoginAnswers | src/auth/auth.service.ts:142-171 | each answer of a login is given if and only if its condition on account, password and cache holds |
| SessionAnswers.WrongPasswordDoes | src/users/users.service.ts:83-100 | a wrong password counts one, and from the fifth on locks for 900000 ms unless a lock runs; nothing else changes but the cached copies in reach |
| SessionAnswers.RightPasswordDoes | src/auth/auth.service.ts:163-171 | the right password clears counter and lock and opens one session with the request's ip and user agent, created now, expiring 604800000 ms later, unless the cache delete throws |
| SessionAnswers.ListingIff | src/auth/auth.service.ts:467-484 | a listing shows exactly the user's unrevoked, unexpired rows, once each, newest first, with the ip, user agent and times of the row |
| SessionAnswers.OpenedIsListed | src/auth/auth.service.ts:467-484 | a session just opened is listed with the request's ip and user agent until it is revoked or seven days have passed |
| SessionAnswers.LogoutDoes | src/auth/auth.service.ts:451-458 | the caller's token is denied for 900000 ms and exactly the named session of the user is revoked; if the write fails nothing happens |
| SessionAnswers.LogoutAllDoes | src/auth/auth.service.ts:460-465 | the caller's token and the tokens of the user's unrevoked sessions are denied and exactly those sessions revoked; if the first write fails nothing happens |
| SessionAnswers.ChangePasswordDoes | src/auth/auth.service.ts:427-449 | each answer if and only if its condition holds; only then the password is replaced, the copies in reach dropped, and the sessions revoked unless the cache delete throws |
| SessionAnswers.SetUserActiveDoes | src/modules/rbac/services/user-admin.service.ts:12-25 | the flag is written for an existing user, and a deactivation whose cache delete goes through revokes exactly the user's sessions |
| SessionAnswers.RegisterDoes | src/auth/auth.service.ts:400-425 | adds an active account without failures if the name is free, and changes nothing otherwise |
| SessionAnswers.PurgeDoes | src/modules/maintenance/purge.service.ts:50-61 | removes exactly the rows with expiresAt more than graceDays * 86400000 ms ago that were not spared, and clears exactly the links into them |
| SessionAnswers.ValidateAnswers | src/auth/strategy/jwt.strategy.ts:28-69 | each verdict if and only if its condition on token, denylist and the row the process sees holds |
| SessionAnswers.ValidateDoes | src/auth/strategy/jwt.strategy.ts:46-54 | what a validation leaves in the cache: a stored row in both tiers for 30000 ms, a promoted copy, or nothing |
| RefreshLock.WorkRefines | src/auth/auth.service.ts:199-318 | every statement but the last leaves the settled state alone; the last takes it to what the atomic exchange gives, with its answer |
| RefreshLock.CrashRollsBack | src/auth/auth.service.ts:199-318 | a rollback at any statement leaves every row as it was |
| RefreshLock.EveryStepIsAtomic | src/auth/auth.service.ts:199-214 | in every interleaving the settled state moves only by whole operations |
| RefreshLock.AtMostOneSuccess | src/auth/auth.service.ts:199-214 | any number of interleaved presentations of one token yield at most one success; those finishing after it are refused harmlessly |
| RefreshLock.NothingHappensAfterSuccess | src/auth/auth.service.ts:211-214 | after a success no statement of another presentation changes a stored row |
| RefreshProgress.WaitingGoesThrough | src/auth/auth.service.ts:199-318 | a presentation that gets the row lock and is not interrupted ends within three more statements, with the rows and the answer of the whole exchange |
| RefreshProgress.BeginWaitsIff | src/auth/auth.service.ts:187-199 | a presentation waits for the lock if and only if its token verifies, and is refused at once otherwise |
| RefreshProgress.UninterruptedIsRefresh | src/auth/auth.service.ts:174-318 | uninterrupted, its statements are the refresh step of the state machine, effect and answer |
| SessionPurge.PurgeIsInvisible | src/modules/maintenance/purge.service.ts:50-61 | runs with and without their purges answer every later operation alike, up to revocation counts, and list the same sessions |
| SessionPurge.ExpiredRowIsRefused | src/auth/auth.service.ts:187-191 | a token whose row a purge removed no longer verifies anyway |
| PurgeJob.Database.DeleteBatch | src/modules/maintenance/purge.service.ts:56-60 | removes some of the stale rows, as many as the batch allows, whichever the database picks |
| PurgeJob.PurgeService.constructor | src/modules/maintenance/purge.service.ts:15-18 | the defaults |
| PurgeJob.PurgeService.OnModuleInit | src/modules/maintenance/purge.service.ts:28-33 | configured values or defaults; the batch is at least one row |
| PurgeJob.PurgeService.DeleteInBatches | src/modules/maintenance/purge.service.ts:97-113 | terminates; removes exactly the stale rows and returns their number, or on a database failure exactly the full batches done so far |
| PurgeJob.EndsInNumbers | src/modules/maintenance/purge.service.ts:97-113 | the number of deletes is n / b + 1, and after a failure k * b rows are gone |
| PurgeJob.CutoffIs | src/modules/maintenance/purge.service.ts:115-119 | a time lies before the cutoff if and only if it is more than the given days of 86400000 ms ago |
| PurgeJob.PurgeService.RunSessionPurge | src/modules/maintenance/purge.service.ts:45-69 | nothing when disabled; else, complete, exactly the rows with expiresAt more than graceDays * 86400000 ms ago go, interrupted only such rows, and back-links into them are nulled |
| PurgeJob.PurgeService.RunAuditPurge | src/modules/maintenance/purge.service.ts:71-95 | every row with createdAt + auditRetentionDays * 86400000 ms not before now stays, and after a complete run every other one is gone; sessions are left alone |
| PurgeJob.JobIsPurge | src/modules/maintenance/purge.service.ts:45-69 | what the job does to sessions is one purge step of the state machine, complete or partial |

## Left out

- RbacTheorems.CompletedWritesAreVisible: says nothing about a hit in another process after a failed epoch read, nor about joined values there, because those can be older; VisibleAcrossProcessesIff says exactly which paths are safe.
- RbacTheorems.CachedEntriesIncludeTheirEpoch: in the protocol INCR never fails and the epoch key is never lost; with the local fallback of `src/modules/rbac/services/rbac.service.ts:72-76` tickets are no longer unique and the code is best effort.
- RbacAdmin.PermissionService.Remove: lookup and delete are one step in the class and in the protocol; StaleHolderListCoversIff treats the gap between them.
- RbacAdmin.RoleService.Update: the relations that TypeORM loads and saves with the role are not rewritten, and only the fields name and isActive are modelled.
- Creates of features, permissions and roles are functions on the tables, covered by the coverage theorem, but not methods of the classes.
- Redis replies to one process arrive in the order its commands were served, as on one connection; the epoch stays within the integers JavaScript represents exactly.
- The late epoch read at `src/modules/rbac/services/rbac.service.ts:135` is unreachable, since the first read never throws; `cachedRoleKeys` only feeds a log count.
- Cache lifetimes of permission entries: any entry may be promoted, disappear or be rewritten at any time instead.
- UserCache.DeactivationBitesWithinThirtySeconds: 30 seconds is extended by the longest delay between a validation's row read and its cache write, and, if the cache library's `get` copies entries from the shared tier to the memory tier, by the longest life of such a copy; both are parameters.
- UserCache.CachedVerdictIsUncachedVerdict: between a row update and the return of its cache delete a copy may still show the row before the update, and no verdict on that user is claimed then; a delete empties both its tiers in one event, while writes reach them in separate ones.
- SessionCache.OneProcessVerdictIsUncached: a validation's row read and cache write are one step; split, OneProcessCoherentIff says exactly when it holds, and DeactivationDuringValidation shows that it can fail.
- SessionCache.OperationCoherentIff: operations are whole; CoherenceIff has them split at their awaits.
- A cache delete that throws has emptied the caller's own memory tier, which is in the process itself, and has left the shared one; every delete that fails throws, one that failed silently would let the deactivation go on to revoke the sessions.
- SessionTheorems.BulkRevocationIsExact: the operation is whole; with refreshes in their transactions while it runs, SplitRefresh says exactly what it leaves.
- SessionTheorems.RevokedAccessTokensStayRefused: denylist entries are one map, since a write that succeeds reaches the shared tier every process reads; a write that fails counts as not made, although the writer's memory tier may have it, and entries are not evicted before their time. A denylist read always answers: if the cache library reported a failed read as a miss, the token would be let through.
- SessionAccounting.InactiveCleanIff: steps are whole operations; SplitLoginCleanIff has the login split at its await, and WaitingDeactivationCleanIff the deactivation that waits for a refresh.
- SessionAccounting.InactiveGainsNothing: like InactiveCleanIff it is about whole operations; SplitLoginCleanIff has the login that was admitted before the deactivation.
- SplitRefresh.WaitingRevocationCleanIff: the revocation is one UPDATE under read committed isolation, which re-checks a row it waited for; logins that finish while it waits, which open sessions too, are the matter of SplitLogin.
- Users.GuessBound: attempts do not overlap; OverlappingGuessBound is for those that do.
- AuthServices.AuthService.Refresh: audit events and the IP and user-agent mismatch record are not modelled, and other operations do not interleave with its transaction.
- RefreshLock.EveryStepIsAtomic: operations other than refreshes of the same token run while the lock is free, and time stands still while it is held; a bulk revocation that waits for the lock is the matter of SplitRefresh.
- SessionTheorems.RevokedAccessTokensStayRefused: access tokens of sessions rotated before the bulk revocation are not covered, because the code does not denylist them.
- Cryptography: tokens, token ids and row ids are fresh values from one counter, a hash is injective, the password comparison is an answer given to the operation, and signing and verification are lookups in the set of signed tokens.
- Clocks: time is monotone and the same everywhere, database timestamps are the service's milliseconds, and a day is 24 hours, so daylight saving changes in `setDate` are not captured.
- Sessions.Register: the role lookup and the unique-email error of registration are left out; it adds an active account if the name is free.
- Users are named by one identifier that serves as id and email; the payload fields of tokens other than subject, kind, id and expiry are dropped.
- Hard deletion of users, which would cascade to sessions, is not an operation of the services modelled.
- Failures of database statements other than in refresh transactions and purges.
- Controllers, DTO validation, guards, throttling, logging, health checks, audit queue, pagination and the seed script: single-branch or I/O.
