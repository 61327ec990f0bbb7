# Basix Core: a verified model

A Dafny 4.11 model of the stateful parts of Basix Core: the leased delivery queues and campaigns of the agent engine,
refresh sessions and one-time tokens, app users, the rate limiter, the credential cache, the vault/row protocol,
message templates, usage trends, slugs, playbooks and inbound webhooks. `dafny verify dfyconfig.toml` checks it all.

## How it is built

Tables are sequences whose indices are the row ids (fresh, never reused). Every SQL statement or transaction is one
function from tables to tables; a service or a module of the original that updates things in place is a class whose
methods are proved to compute those functions, loops included. A protocol with several statements per request is a
state machine: a program counter per worker or request, an `Enabled`/`Step` pair for one atomic step, and a `Run` for
any finite interleaving, crashes and late writes included. Properties are proved of all runs by induction on the run.
Random ids and secrets are fresh numbers, and a hash verifies exactly for the secret it was made from. Clocks and the
outcomes of calls to providers are inputs.

| files | original | subject |
|---|---|---|
| `DeliveryModel`, `DeliveryQueue` | `apps/agent-engine/app/queue.py`, `worker.py` | tables, statements, workers, runs; the same as code |
| `DeliveryAttempts`, `DeliveryBackoff`, `DeliveryLeases`, `DeliveryExclusion`, `DeliveryDrain`, `DeliveryOrder`, `DeliveryWitnesses` | same | attempts; backoff; runs that respect the leases; exclusion in all runs; draining; order; runs that break the conditional properties |
| `Campaigns` | same, and `ai-platform.service.ts` | campaign status, recipients as mirrors of messages |
| `SessionRotation`, `OneTimeTokens`, `AppUsers` | `auth.service.ts`, `app-auth.service.ts` | rotation, tokens, accounts |
| `RateLimit` | `rate-limit.service.ts` | fixed windows |
| `CredentialCache` | `provider_credentials.py` | cache against plain lookup |
| `VaultRows` | `environment-variable.service.ts`, `provider-credential.service.ts` | create, rotate, revoke with compensation |
| `Templates`, `Playbooks` | `ai-platform.service.ts` | placeholders, version chains, assignments |
| `UsageTrends` | `usage-trends.ts`, `usage-metrics.service.ts` | two-stage rounded aggregation |
| `Slugs` | `app.service.ts`, `tenant.service.ts` | normalisation and unique suffixes |
| `Webhook` | `main.py`, `billing.py`, `queue.py` | idempotence and quota |

## What the proofs show about the code

Where a property of a row, a user or a secret holds only under a condition, the exact condition is a theorem over all
runs and a run shows the failure. The number of claims that draining takes is bounded one way only, in runs that respect
the leases.

- The marks of `queue.py` update by id alone. A settled row is reopened exactly when a mark finds it settled and
  would change it (`SettledKeptIff`); a write after the lease, or an exception after the mark, does that
  (`LateWriteReopensDoneMessage`, `RaiseAfterMarkDeliversTwice`). A row is marked delivered twice exactly when a mark
  hits a row that was delivered before (`MarkedAtMostOnceIff`). The campaign status survives all of it.
- A settled recipient changes its outcome exactly when a mark reaches it with the other one
  (`SettledRecipientKeptIff`); an exception after `mark_email_sent` does (`RaiseAfterMarkFailsSentMail`).
- No row gets stuck: in every run an idle worker finds something to claim after a while exactly as long as something is
  unsettled (`IdleForGoodIff`).
- Two workers have live leases on one message exactly when a queued row is claimed while an earlier claimer's lease
  runs, which the claim does not test (`OneLiveWorkerIff`, `LateWriteSharesMessage`). An e-mail recipient never has two,
  in any run (`OneLiveMailer`).
- A takeover of an expired lease does not look at `max_attempts`, so attempts can pass it, by at most the number of
  takeovers (`AttemptsBound`), and by all of them for every `max_attempts` (`AttemptsBoundIsReached`). Draining
  takes no more claims than attempts and e-mails are left, again up to takeovers (`ClaimsUseMeasure`).
- The backoff spreads out the n-th claim of an AI message in every run exactly if the lease is at least 5(n-1) seconds
  (`AlwaysSpreadOutIff`); a takeover after a shorter lease comes ahead of it (`EarlyTakeover`).
- A requeued WhatsApp message leaves its recipient settled exactly when it was settled before (`MirrorExactIff`).
- `consumeOneTimeToken` updates by row id, so a value replaced by a resend between its check and its update is still
  accepted, and only then (`AcceptsReplacedValueIff`).
- Every method that ends in `createSession` does so without looking at the user again, and `updateUser` disables the
  user and revokes the sessions in two statements. A disabled user has a live session, once no `updateUser` is between
  the two, exactly when a session is created for it late or an `updateUser` died there (`DisabledLockedOutIff`).
- A reset leaves one live session, plus one per login or other request that had passed its checks by then
  (`SessionsAfterReset`, `LoginsOutliveReset`).
- A failing audit insert after the row insert deletes the secret under a live row (`AuditErrorLeavesDanglingRow`).
  So does the cleanup after an insert that went in without an answer. Rows and vault agree at rest exactly if no
  creator died, failed to delete, missed an id or cleaned up at the wrong moment
  (`AtRest`, `CleanAtRestIff`).
- The rate limiter admits in an interval at most, and for some history exactly, the number `MostAdmitted` gives, which
  is below limit * (ceil(T / window) + 1).
- Webhooks that race between quota check and insert pass the limit by as many as race, less one
  (`MonthlyRowsBounded`, `RaceReachesBound`).

The credential cache stores tenant scope under the name "tenant", so its keys are faithful only for channels of other
names (`ScopesShareIff`); channel ids are UUIDs, and the cache property is stated for those.

## Model

| member | source | states |
|---|---|---|
| DeliveryAttempts.AttemptsBound | apps/agent-engine/app/queue.py:90-173 | in every run, with crashes, late marks and mark_failed split in two, attempts is the number of claims and exceeds max_attempts (at least 1) by at most the takeovers |
| DeliveryAttempts.StepKeepsAccounts | apps/agent-engine/app/queue.py:142-173 | one step of any worker keeps the account of holders, pending requeues and the queued state of a row |
| DeliveryAttempts.ClaimsSpreadOut | apps/agent-engine/app/queue.py:148-160 | the n-th claim of an AI message comes at least 5n(n-1)/2 seconds after its first if it was never taken over, and in every run while 5(n-1) is within a lease |
| DeliveryBackoff.AttemptsBoundIsReached | apps/agent-engine/app/queue.py:101-116 | for every max_attempts, number of takeovers and lease, a run whose attempts reach the bound |
| DeliveryBackoff.AlwaysSpreadOutIff | apps/agent-engine/app/queue.py:101-153 | for each n and lease: in all runs, or all lease-respecting runs, the n-th claim comes that late if and only if the lease is at least 5(n-1) seconds |
| DeliveryBackoff.EarlyTakeover | apps/agent-engine/app/queue.py:101-105 | for every shorter lease, a run whose n-th claim takes over too early |
| DeliveryLeases.OneLiveWorker | apps/agent-engine/app/queue.py:90-124 | if workers write in their lease and nothing raises after a mark, a message or e-mail recipient has at most one worker with an unexpired lease |
| DeliveryLeases.SettledJobsStay | apps/agent-engine/app/queue.py:127-173 | in such runs done and failed are never left |
| DeliveryLeases.SettledMailStays | apps/agent-engine/app/queue.py:356-394 | in such runs the sent and failed of an e-mail recipient are never left |
| DeliveryLeases.MarkedDoneOnce | apps/agent-engine/app/worker.py:37-205 | in such runs a message or e-mail recipient is marked delivered at most once, and has been exactly when it is done or sent |
| DeliveryExclusion.MarkedAtMostOnceIff | apps/agent-engine/app/queue.py:127-139 | in any run a row is marked delivered at most once if and only if no mark hits a row that was delivered before |
| DeliveryExclusion.OneLiveWorkerIff | apps/agent-engine/app/queue.py:97-105 | in any run a message has at most one worker with an unexpired lease if and only if no queued row is claimed while one runs |
| DeliveryExclusion.OneLiveMailer | apps/agent-engine/app/queue.py:304-394 | in every run an e-mail recipient has at most one worker with an unexpired lease |
| DeliveryLeases.SettledKeptIff | apps/agent-engine/app/queue.py:127-173 | in any run settled states are kept if and only if no mark finds its row settled and writes another status |
| DeliveryDrain.ClaimsUseMeasure | apps/agent-engine/app/queue.py:90-353 | with nothing enqueued, such a run makes at most as many claims as attempts and e-mails are left, plus its takeovers |
| DeliveryDrain.PromptRunsTakeNothingOver | apps/agent-engine/app/queue.py:101-105 | workers that never crash or outlive a lease are never taken over |
| DeliveryDrain.QueuesDrain | apps/agent-engine/app/worker.py:31-156 | prompt workers claim at most once per attempt left and per e-mail to send |
| DeliveryDrain.DrainedIff | apps/agent-engine/app/worker.py:31-205 | with prompt workers and none busy, the measure is used up if and only if every message and e-mail is settled |
| DeliveryDrain.IdleForGoodIff | apps/agent-engine/app/queue.py:90-353 | in every run, crashes and late writes included, an idle worker has nothing to claim however long it waits if and only if everything is settled: no row gets stuck |
| DeliveryWitnesses.LateWriteSharesMessage | apps/agent-engine/app/queue.py:97-105 | a run with two live workers on one message, after a write out of lease |
| DeliveryWitnesses.LateWriteReopensDoneMessage | apps/agent-engine/app/queue.py:142-160 | a run in which a late failure reopens a message another worker has done |
| DeliveryWitnesses.RaiseAfterMarkDeliversTwice | apps/agent-engine/app/worker.py:78-101 | a run with every write in its lease in which a raise after mark_done gets the message done twice |
| DeliveryWitnesses.RaiseAfterMarkBreaksMirror | apps/agent-engine/app/worker.py:140-155 | a run in which a raise after mark_manual_sent queues a message whose recipient is sent |
| DeliveryWitnesses.RaiseAfterMarkFailsSentMail | apps/agent-engine/app/worker.py:183-204 | a run with every write in its lease in which a raise after mark_email_sent turns sent into failed, and the campaign with it |
| Campaigns.CampaignStatusIsSummary | apps/agent-engine/app/queue.py:218-429 | in every reachable state a campaign with a non-skipped recipient is queued while one is pending, else failed if one failed, else sent; a campaign with none is failed |
| Campaigns.SettlingOneKeepsSummaries | apps/agent-engine/app/queue.py:397-429 | one recipient settling and the refresh keep every campaign's status equal to its summary |
| Campaigns.CreationKeepsInvariants | apps/api/src/modules/ai-platform/ai-platform.service.ts:1354-1508 | creating a campaign links its rows and starts it with the status of its recipients |
| Campaigns.SettledRecipientsStay | apps/agent-engine/app/queue.py:304-394 | terminal recipients never become pending again, in any run |
| Campaigns.SettledRecipientKeptIff | apps/agent-engine/app/queue.py:218-394 | in any run a settled recipient, e-mail or WhatsApp, keeps its outcome at every step if and only if no mark reaches it with the other outcome |
| Campaigns.TimelyRunsKeepRecipients | apps/agent-engine/app/queue.py:218-394 | so it does in runs that write in their lease and do not raise after a mark |
| Campaigns.SkippedCountIsFixed | apps/api/src/modules/ai-platform/ai-platform.service.ts:1371-1390 | the skipped count of a campaign never changes |
| Campaigns.RecipientsMirrorMessages | apps/agent-engine/app/queue.py:218-301 | in every run message sent implies recipient sent and message failed implies recipient failed |
| Campaigns.MirrorExactIff | apps/agent-engine/app/queue.py:247-274 | a recipient is queued exactly while its message is pending, all through a run, if and only if no settled message is requeued |
| Campaigns.TimelyRunsMirrorExactly | apps/agent-engine/app/queue.py:177-301 | so it is in runs that write in their lease and do not raise after a mark |
| Campaigns.ClaimsAwaitSchedule | apps/agent-engine/app/queue.py:188-198 | a claimed delivery belongs to a campaign whose stored schedule is open |
| Campaigns.CampaignKeepsRequest | apps/api/src/modules/ai-platform/ai-platform.service.ts:1357-1366 | a campaign keeps, in every later state, the channel and schedule it was created with |
| Campaigns.CampaignKeepsRecipients | apps/api/src/modules/ai-platform/ai-platform.service.ts:1371-1470 | its recipients stay its own: skipped if unreachable, else with a message on WhatsApp or an address on e-mail |
| Campaigns.NotClaimedBeforeAsked | apps/agent-engine/app/queue.py:188-345 | so in every run nothing of a campaign is claimed before the time it was asked for |
| Campaigns.CountIsPresence | apps/agent-engine/app/queue.py:398-418 | the counts the refresh reads are nonzero exactly when such a recipient exists |
| DeliveryQueue.DeliveryTables.OldestClaimable | apps/agent-engine/app/queue.py:92-109 | finds the oldest eligible row that is not locked, and none exactly if there is none |
| DeliveryQueue.DeliveryTables.ClaimNext | apps/agent-engine/app/queue.py:90-215 | claims that row under a new lease with one more attempt, AI or manual |
| DeliveryQueue.DeliveryTables.ClaimNextEmailRecipient | apps/agent-engine/app/queue.py:304-353 | claims the oldest eligible e-mail recipient |
| DeliveryQueue.DeliveryTables.EnqueueJob | apps/agent-engine/app/queue.py:63-87 | a new row is queued with no attempts and, for AI, at once claimable |
| DeliveryQueue.DeliveryTables.CountRecipients | apps/agent-engine/app/queue.py:398-418 | counts a campaign's recipients by status |
| DeliveryQueue.DeliveryTables.RefreshCampaignStatus | apps/agent-engine/app/queue.py:397-429 | leaves the campaign while recipients are pending, else sets failed or sent |
| DeliveryQueue.DeliveryTables.TouchLinkedRecipients | apps/agent-engine/app/queue.py:232-242 | updates the recipients of a message and returns the first one's campaign |
| DeliveryQueue.DeliveryTables.InsertRecipient | apps/api/src/modules/ai-platform/ai-platform.service.ts:1371-1470 | one recipient's rows: a message only for a deliverable WhatsApp recipient |
| DeliveryQueue.DeliveryTables.CreateCampaignWithRecipients | apps/api/src/modules/ai-platform/ai-platform.service.ts:1354-1508 | stores the channel and schedule asked for and one row per recipient, and counts queued and skipped recipients |
| DeliveryModel.AddedRecipientsSay | apps/api/src/modules/ai-platform/ai-platform.service.ts:1371-1470 | the columns of the rows a new campaign gets, messages with three attempts included |
| DeliveryOrder.RowsAreInOrder | apps/agent-engine/app/queue.py:107-109 | in every state rows were created in the order of their ids, so oldest first is first in first out |
| DeliveryQueue.DeliveryTables.MarkDone | apps/agent-engine/app/queue.py:127-244 | mark_done and mark_manual_sent |
| DeliveryQueue.DeliveryTables.MarkFailed | apps/agent-engine/app/queue.py:142-301 | mark_failed and mark_manual_failed: requeue while attempts are left, else fail |
| DeliveryQueue.DeliveryTables.MarkEmail | apps/agent-engine/app/queue.py:356-394 | mark_email_sent and mark_email_failed |
| DeliveryQueue.ProcessOnce | apps/agent-engine/app/worker.py:31-205 | AI messages before manual ones before e-mails; uninterrupted, each delivery is the run of its steps |
| DeliveryQueue.JobScriptPlays | apps/agent-engine/app/worker.py:37-156 | the steps of one uninterrupted delivery and their combined effect |
| SessionRotation.RotatedAtMostOnce | apps/api/src/modules/auth/auth.service.ts:51-64 | however many refreshes race, a session is rotated at most once, and the row records it |
| SessionRotation.RevokedStaysRevoked | apps/api/src/modules/auth/auth.service.ts:91-94 | a revoked session never becomes unrevoked, also under the unconditional update of logout |
| SessionRotation.RunKeepsOnePerLineage | apps/api/src/modules/auth/auth.service.ts:34-126 | a login's lineage has at most one unrevoked session, counting refreshes that have won and not yet created the successor |
| SessionRotation.LiveSessionsBounded | apps/api/src/modules/app-auth/app-auth.service.ts:196-279 | unrevoked sessions and refreshes in flight never outnumber the logins |
| SessionRotation.SessionsBelongToTheirLogin | apps/api/src/modules/auth/auth.service.ts:66-71 | in every run a session, however often rotated, belongs to the user of the login it descends from |
| SessionRotation.RefreshIsItsSteps | apps/api/src/modules/auth/auth.service.ts:34-72 | an uninterrupted refresh is the run of its three steps |
| SessionRotation.AuthService.CreateSession | apps/api/src/modules/auth/auth.service.ts:99-126 | stores the given user; only the new value with its own secret is accepted, for exactly seven days |
| SessionRotation.AuthService.RotateIfLive | apps/api/src/modules/auth/auth.service.ts:52-61 | the compare-and-set and its count |
| SessionRotation.AuthService.RefreshSession | apps/api/src/modules/auth/auth.service.ts:34-72 | succeeds exactly for an unrevoked, unexpired session presented with its secret; the successor is the same user's and no other row changes |
| SessionRotation.AuthService.Logout | apps/api/src/modules/auth/auth.service.ts:74-97 | afterwards the value is not accepted; nothing else changes |
| OneTimeTokens.ConsumedAtMostOnce | apps/api/src/modules/app-auth/app-auth.service.ts:736-782 | a token row is consumed at most once under any interleaving |
| OneTimeTokens.AcceptedWasShown | apps/api/src/modules/app-auth/app-auth.service.ts:736-782 | in every run a token is accepted only from a request that was shown the right value for its purpose and app, and only while unconsumed, unrevoked and unexpired |
| OneTimeTokens.StepsWriteColumns | apps/api/src/modules/app-auth/app-auth.service.ts:510-782 | the columns written by issuing, consuming, resending and revoking |
| OneTimeTokens.NeverAcceptedAfterRevocation | apps/api/src/modules/app-auth/app-auth.service.ts:547-568 | nothing is accepted after the row's revocation step |
| OneTimeTokens.AcceptsReplacedValueIff | apps/api/src/modules/app-auth/app-auth.service.ts:768-776 | a replaced value is accepted exactly when the resend came between check and update |
| OneTimeTokens.ReplacedValueNeverAccepted | apps/api/src/modules/app-auth/app-auth.service.ts:510-545 | with whole methods as steps a value that is gone is never accepted again |
| OneTimeTokens.ResendReplaces | apps/api/src/modules/app-auth/app-auth.service.ts:530-538 | a resend makes the old value one that no row has |
| OneTimeTokens.ReplacedValueAcceptedInBetween | apps/api/src/modules/app-auth/app-auth.service.ts:746-776 | a run in which a replaced invitation is accepted |
| OneTimeTokens.TokenService.CreateOneTimeToken | apps/api/src/modules/app-auth/app-auth.service.ts:703-734 | adds a row with an unused token id |
| OneTimeTokens.TokenService.ConsumeOneTimeToken | apps/api/src/modules/app-auth/app-auth.service.ts:736-782 | succeeds exactly for a fresh row of that value, purpose and app, and consumes it |
| OneTimeTokens.TokenService.ResendInvitation | apps/api/src/modules/app-auth/app-auth.service.ts:510-545 | succeeds exactly for an open invitation; the new value works, the old is in no row |
| OneTimeTokens.TokenService.RevokeInvitation | apps/api/src/modules/app-auth/app-auth.service.ts:547-568 | revokes an invitation, leaving a revoked one as it is |
| AppUsers.ActiveUsersAreVerified | apps/api/src/modules/app-auth/app-auth.service.ts:93-465 | in every run an active user has emailVerifiedAt set |
| AppUsers.StepActivates | apps/api/src/modules/app-auth/app-auth.service.ts:93-465 | a user becomes active only by verification, reset, invitation or an administrator; a sign-up leaves it pending |
| AppUsers.NoSessionBeforeActivation | apps/api/src/modules/app-auth/app-auth.service.ts:93-194 | in every run a user not yet activated by one of these is not active and has never had a session |
| AppUsers.DisabledLockedOutIff | apps/api/src/modules/app-auth/app-auth.service.ts:93-465 | statement by statement: a disabled user with no updateUser half done has no unrevoked session, all through a run, if and only if no session is created late for it and no updateUser dies half way |
| AppUsers.SerialRunsLockOut | apps/api/src/modules/app-auth/app-auth.service.ts:433-465 | with each method one step a disabled user never has an unrevoked session |
| AppUsers.LateSessionForDisabledUser | apps/api/src/modules/app-auth/app-auth.service.ts:158-405 | login, refresh, verification, reset and invitation each have a run whose session comes after the user was disabled |
| AppUsers.DyingUpdateLeavesSession | apps/api/src/modules/app-auth/app-auth.service.ts:441-461 | an updateUser that dies between its two statements |
| AppUsers.SignupIsItsSteps | apps/api/src/modules/app-auth/app-auth.service.ts:93-128 | uninterrupted, the statements of signup have the effect of the whole method |
| AppUsers.LoginIsItsSteps | apps/api/src/modules/app-auth/app-auth.service.ts:176-194 | so with login |
| AppUsers.RefreshIsItsSteps | apps/api/src/modules/app-auth/app-auth.service.ts:203-250 | so with refresh |
| AppUsers.VerifyAndResetAreTheirSteps | apps/api/src/modules/app-auth/app-auth.service.ts:158-361 | so with verifyEmail and resetPassword |
| AppUsers.InvitationAndUpdateAreTheirSteps | apps/api/src/modules/app-auth/app-auth.service.ts:366-465 | so with acceptInvitation and updateUser |
| AppUsers.SessionsAfterReset | apps/api/src/modules/app-auth/app-auth.service.ts:334-405 | after a reset or an accepted invitation: one live session, one per request already about to create one, one per later request; pending refreshes add none |
| AppUsers.LoginsOutliveReset | apps/api/src/modules/app-auth/app-auth.service.ts:176-194 | for every number of pending logins, a run in which all of them get their sessions after a reset |
| AppUsers.ExactlyOneSessionLeft | apps/api/src/modules/app-auth/app-auth.service.ts:322-406 | resetPassword and acceptInvitation leave the user exactly one unrevoked session and other users theirs |
| AppUsers.AccountService.SignupFor | apps/api/src/modules/app-auth/app-auth.service.ts:93-128 | makes a new account pending and changes no other account and no session |
| AppUsers.AccountService.VerifyEmailFor | apps/api/src/modules/app-auth/app-auth.service.ts:158-173 | activates the user and opens a session |
| AppUsers.AccountService.Login | apps/api/src/modules/app-auth/app-auth.service.ts:176-194 | opens a session exactly for an active user with the right password |
| AppUsers.AccountService.Refresh | apps/api/src/modules/app-auth/app-auth.service.ts:203-250 | trades an unrevoked, validly presented session of an active user for a new one |
| AppUsers.AccountService.RevokeSessionsOf | apps/api/src/modules/app-auth/app-auth.service.ts:352-355 | revokes the user's sessions and no others |
| AppUsers.AccountService.AcceptInvitationFor | apps/api/src/modules/app-auth/app-auth.service.ts:372-405 | activates or creates the user, revokes its sessions and opens one |
| AppUsers.AccountService.ResetPasswordFor | apps/api/src/modules/app-auth/app-auth.service.ts:334-361 | the same for an existing user |
| AppUsers.AccountService.UpdateUserStatus | apps/api/src/modules/app-auth/app-auth.service.ts:433-465 | sets the status, the verification date on activation, and revokes on disabling |
| RateLimit.NoneAdmitMore | apps/api/src/modules/enforcement/services/rate-limit.service.ts:28-45 | no interval of length T admits more than MostAdmitted, whatever the history |
| RateLimit.MostIsReached | apps/api/src/modules/enforcement/services/rate-limit.service.ts:28-45 | for every limit, window and length some history admits that many |
| RateLimit.SlidingWindowBound | apps/api/src/modules/enforcement/services/rate-limit.service.ts:28-45 | so every interval of length T admits fewer than limit * (ceil(T/window) + 1) calls of a key |
| RateLimit.UnderTwiceTheLimit | apps/api/src/modules/enforcement/services/rate-limit.service.ts:36-44 | a stretch as long as the window admits at most 2 * limit - 1 |
| RateLimit.CountsSinceOpening | apps/api/src/modules/enforcement/services/rate-limit.service.ts:36-42 | a counter is the number of calls on its key since its window opened |
| RateLimit.KeysAreDistinct | apps/api/src/modules/enforcement/services/rate-limit.service.ts:61-73 | keys of different dimensions or ids never collide |
| RateLimit.DimensionsCount | apps/api/src/modules/enforcement/services/rate-limit.service.ts:61-73 | the key of each dimension holds the id of the token, the app or the tenant |
| RateLimit.CallsCount | apps/api/src/modules/enforcement/services/rate-limit.service.ts:34-42 | a call counts on its own key and no other |
| RateLimit.DecisionFields | apps/api/src/modules/enforcement/services/rate-limit.service.ts:44-59 | the fields of a decision, retryAfterSeconds being the least that is enough |
| RateLimit.RateLimitService.Consume | apps/api/src/modules/enforcement/services/rate-limit.service.ts:28-59 | each key's counter depends on its own calls alone; the decision fields, retryAfterSeconds being the least whole number of seconds after which the window has reset (Retry-After, section 10.2.3 of RFC 9110) |
| RateLimit.RateLimitService.Evaluate | apps/api/src/modules/enforcement/services/rate-limit.service.ts:24-26 | one call per rule in rule order, each decided by its own key's counter after the calls before it |
| CredentialCache.ValuesAreRecent | apps/agent-engine/app/provider_credentials.py:28-69 | every value from the vault path is what plain lookup gave less than 60 seconds before, for the same cache scope |
| CredentialCache.ValuesAreRecentLookups | apps/agent-engine/app/provider_credentials.py:28-69 | and for the same query, as long as no channel is called "tenant" or "" |
| CredentialCache.FreshValuesAreServed | apps/agent-engine/app/provider_credentials.py:28-34 | a value looked up is served from the cache for 60 seconds, whatever happens to its row |
| CredentialCache.ScopesShareIff | apps/agent-engine/app/provider_credentials.py:29-29 | which scopes share cache entries |
| CredentialCache.ChannelCalledTenantLeaks | apps/agent-engine/app/provider_credentials.py:29-29 | a history in which such a channel's secret is returned for tenant scope |
| CredentialCache.FetchFindsLookup | apps/agent-engine/app/provider_credentials.py:36-65 | one ordered query for all missing keys finds, key by key, the channel's first non-empty secret, else the tenant's |
| CredentialCache.LookupFindsRow | apps/agent-engine/app/provider_credentials.py:36-58 | lookup gives the secret of the first active row of that tenant, provider and key, the channel's before the tenant's, and nothing exactly if there is none |
| CredentialCache.CredentialResolver.FromCache | apps/agent-engine/app/provider_credentials.py:28-34 | splits the requested keys into unexpired cached values and missing keys |
| CredentialCache.CredentialResolver.ReadVault | apps/agent-engine/app/provider_credentials.py:59-69 | takes the first non-empty secret per key and stores just those |
| CredentialCache.CredentialResolver.Resolve | apps/agent-engine/app/provider_credentials.py:15-85 | cached or looked-up values win over the environment, which is never stored; an error exactly if a required key has none |
| VaultRows.AtMostOneActive | packages/database/prisma/migrations/20260521160000_tenant_environment_variables/migration.sql:24-26 | a key has at most one active row under any interleaving |
| VaultRows.ActiveRowsDiffer | packages/database/prisma/migrations/20260521160000_tenant_environment_variables/migration.sql:24-26 | the same by columns: two active rows differ in one of them |
| VaultRows.SecretIsLastWritten | apps/api/src/modules/environment-variable/environment-variable.service.ts:102-150 | in every run a secret in the vault is what the last creation or rotation of it wrote |
| VaultRows.CreateIsItsSteps | apps/api/src/modules/environment-variable/environment-variable.service.ts:40-84 | an uninterrupted creation adds the row and secret asked for, or nothing if the key is taken |
| VaultRows.RotateAndRevokeAreTheirSteps | apps/api/src/modules/provider-credential/provider-credential.service.ts:121-197 | what an uninterrupted rotation or revocation writes |
| VaultRows.SecretsMatchRowsAndCreators | apps/api/src/modules/environment-variable/environment-variable.service.ts:40-84 | in runs without audit or cleanup failures the vault's secrets are one to one those of rows and of creators not yet done |
| VaultRows.AtRest | apps/api/src/modules/provider-credential/provider-credential.service.ts:55-106 | in any run at rest a secret is an orphan iff a creator owing it died, failed to delete it or never learned its id, and a row dangles iff its creator deleted the secret although the row was in |
| VaultRows.CleanAtRestIff | apps/api/src/modules/environment-variable/environment-variable.service.ts:40-84 | at rest the vault holds exactly the secrets of the rows if and only if no such fault happened |
| VaultRows.CleanAtRest | apps/api/src/modules/environment-variable/environment-variable.service.ts:40-84 | without such failures, none |
| VaultRows.AuditErrorLeavesDanglingRow | apps/api/src/modules/environment-variable/environment-variable.service.ts:62-78 | a run in which a failed audit insert leaves a row without its secret |
| VaultRows.SecretService.HasActive | apps/api/src/modules/environment-variable/environment-variable.service.ts:198-211 | the duplicate check, and the unique index's |
| VaultRows.SecretService.Create | apps/api/src/modules/environment-variable/environment-variable.service.ts:40-84 | succeeds exactly without conflict or fault; a failure that is cleaned up leaves rows and vault as they were |
| VaultRows.SecretService.Rotate | apps/api/src/modules/provider-credential/provider-credential.service.ts:121-166 | rewrites the row's secret; variables refuse once revoked |
| VaultRows.SecretService.Revoke | apps/api/src/modules/provider-credential/provider-credential.service.ts:168-197 | deactivates the row, which frees its key |
| Templates.MatchIff | apps/api/src/modules/ai-platform/ai-platform.service.ts:1777-1777 | the matcher succeeds exactly where some stretch fits the pattern |
| Templates.MatchIsComplete | apps/api/src/modules/ai-platform/ai-platform.service.ts:1777-1777 | and finds the only such stretch and name |
| Templates.ScanKeepsSource | apps/api/src/modules/ai-platform/ai-platform.service.ts:1785-1793 | the pieces of a template give it back |
| Templates.ReplaceFillsPieces | apps/api/src/modules/ai-platform/ai-platform.service.ts:1768-1783 | rendering is one pass over the pieces and never rescans inserted values |
| Templates.RenderingConcatenates | apps/api/src/modules/ai-platform/ai-platform.service.ts:1768-1783 | rendering concatenates the text pieces and, for each placeholder, the value bound to its name, or nothing if it is null or not bound |
| Templates.RendersOne | apps/api/src/modules/ai-platform/ai-platform.service.ts:1777-1781 | a placeholder between texts without braces becomes its value between them |
| Templates.NameCharacters | apps/api/src/modules/ai-platform/ai-platform.service.ts:1777-1777 | which characters names are made of |
| Templates.SpaceCharacters | apps/api/src/modules/ai-platform/ai-platform.service.ts:1777-1777 | which characters count as white space |
| Templates.ExtractedNamesDecide | apps/api/src/modules/ai-platform/ai-platform.service.ts:1768-1793 | variables that agree on the extracted names render alike |
| Templates.NamesAreHoles | apps/api/src/modules/ai-platform/ai-platform.service.ts:1785-1793 | the extracted names are those of the placeholders |
| Templates.DistinctKeepsMembers | apps/api/src/modules/ai-platform/ai-platform.service.ts:1786-1792 | each name is listed once |
| Templates.ExtractionIsInOrder | apps/api/src/modules/ai-platform/ai-platform.service.ts:1785-1793 | names come in the order of first use, the subject before the body |
| Templates.ExtractTemplateVariables | apps/api/src/modules/ai-platform/ai-platform.service.ts:1785-1793 | the loop over both texts computes that list in order |
| Templates.StoredListIsExtraction | apps/api/src/modules/ai-platform/ai-platform.service.ts:1134-1172 | if variables are never supplied, the stored list is the extraction from the current text after every update |
| Templates.ListIsCurrentIff | apps/api/src/modules/ai-platform/ai-platform.service.ts:1134-1172 | after any changes the stored list is current iff the last change to name variables or touch text left it to the extraction or named exactly the current variables |
| Templates.TextIsLastWritten | apps/api/src/modules/ai-platform/ai-platform.service.ts:1134-1139 | subject and body are, trimmed, what the changes wrote last |
| Templates.TextIsAsCreated | apps/api/src/modules/ai-platform/ai-platform.service.ts:1066-1070 | without such a change they are what the template was created with |
| Templates.TrimDropsOuterSpace | apps/api/src/modules/ai-platform/ai-platform.service.ts:1066-1067 | trimming removes outer white space and only that |
| UsageTrends.MergeUsageTrends | apps/web/src/lib/api/usage-trends.ts:10-41 | one point per day that occurs, in increasing order, with that day's sums and rounded average |
| UsageTrends.MergePreservesTotals | apps/web/src/lib/api/usage-trends.ts:21-27 | merging preserves total requests and total errors |
| UsageTrends.MergeIgnoresOrder | apps/web/src/lib/api/usage-trends.ts:10-41 | the result does not depend on the order of the input |
| UsageTrends.MergedLatencyBetween | apps/web/src/lib/api/usage-trends.ts:35-38 | a day's latency lies between the smallest and largest contributing averages |
| UsageTrends.DashboardLatencyWithinOne | apps/api/src/modules/observability/services/usage-metrics.service.ts:298-319 | after both roundings the latency is within 1 ms of the exact mean over all events |
| UsageTrends.DashboardCountsEvents | apps/api/src/modules/observability/services/usage-metrics.service.ts:298-319 | the merged point of a day counts its events and errors over all tenants |
| UsageTrends.TotalAdds | apps/api/src/modules/observability/services/usage-metrics.service.ts:303-303 | the total behind the average is the sum of the durations |
| UsageTrends.DaysStandAlone | apps/web/src/lib/api/usage-trends.ts:13-27 | a day is made up of its own points alone |
| UsageTrends.MergeOfOne | apps/web/src/lib/api/usage-trends.ts:30-39 | a point by itself merges to itself, with latency zero if it has no requests |
| UsageTrends.Accumulate | apps/web/src/lib/api/usage-trends.ts:11-28 | the loop's map holds each day's sums |
| Slugs.PatternIsSlug | apps/api/src/modules/app/dto/create-app.dto.ts:26-26 | the pattern accepts words joined by single hyphens, read character by character |
| Slugs.SlugifyMatches | apps/api/src/modules/app/app.service.ts:151-161 | the output always matches the pattern |
| Slugs.FixedPointsArePattern | apps/api/src/modules/app/app.service.ts:151-161 | the fixed points are exactly the strings that match |
| Slugs.SlugifyKeepsWordChars | apps/api/src/modules/tenant/tenant.service.ts:143-153 | letters and digits are kept in order; the fallback is for text with none |
| Slugs.SlugifyJoinsWords | apps/api/src/modules/app/app.service.ts:151-161 | the slug is the runs of letters and digits joined by single hyphens |
| Slugs.DecimalIsInjective | apps/api/src/modules/app/app.service.ts:144-144 | decimal printing is injective |
| Slugs.DecimalReadsBack | apps/api/src/modules/app/app.service.ts:144-144 | the printed suffix reads back as the number, without leading zero |
| Slugs.CreateUniqueSlug | apps/api/src/modules/app/app.service.ts:128-149 | the base if free, else base-k for the least free k from 2 on; matching the pattern, within one more probe than there are slugs |
| Playbooks.ChainsOnlyGrow | apps/api/src/modules/ai-platform/ai-platform.service.ts:816-917 | after any updates versions are numbered 1..n, each the child of the previous, the newest is current and gives title, type and category; old content is unchanged |
| Playbooks.UpdateKeepsChain | apps/api/src/modules/ai-platform/ai-platform.service.ts:838-903 | one update keeps that and adds a version exactly if it touches content |
| Playbooks.UpdateTakesEffect | apps/api/src/modules/ai-platform/ai-platform.service.ts:838-903 | what an update changes, field by field: given fields are taken, trimmed, and others stay |
| Playbooks.NewPlaybookIsChain | apps/api/src/modules/ai-platform/ai-platform.service.ts:753-814 | a new playbook starts such a chain |
| Playbooks.OneVersionPerContentChange | apps/api/src/modules/ai-platform/ai-platform.service.ts:839-873 | versions count the content changes |
| Playbooks.AssignKeepsWellAssigned | apps/api/src/modules/ai-platform/ai-platform.service.ts:960-1013 | active implies enabled; at most one active assignment per tenant, agent and playbook |
| Playbooks.AssignmentsStayWellFormed | apps/api/src/modules/ai-platform/ai-platform.service.ts:919-1032 | so after any requests |
| Playbooks.RequestTakesEffect | apps/api/src/modules/ai-platform/ai-platform.service.ts:960-1013 | the request's row is stored, is the one active row if active, and other targets are untouched |
| Playbooks.RequestedFields | apps/api/src/modules/ai-platform/ai-platform.service.ts:960-961 | a request is enabled unless refused and active unless either is refused |
| Playbooks.PlaybookService.Create | apps/api/src/modules/ai-platform/ai-platform.service.ts:753-814 | adds a playbook with version 1 |
| Playbooks.PlaybookService.Update | apps/api/src/modules/ai-platform/ai-platform.service.ts:816-917 | updates one playbook of the tenant, or reports that the tenant has none such |
| Playbooks.PlaybookService.AssignPlaybook | apps/api/src/modules/ai-platform/ai-platform.service.ts:919-1032 | assigns the chosen or current version of a playbook of the tenant, or reports what is missing; every assignment names a version of its own tenant's playbook |
| Playbooks.AssignmentsComeFrom | apps/api/src/modules/ai-platform/ai-platform.service.ts:929-958 | assigning keeps that |
| Webhook.OneRowPerMessage | apps/agent-engine/app/queue.py:46-87 | one row per accepted (tenant, message id) and one per accepted delivery without an id, after any interleaving |
| Webhook.MonthlyRowsBounded | apps/agent-engine/app/main.py:57-90 | with at most k webhooks between check and insert no month gets more than limit + k - 1 rows |
| Webhook.PlanLimits | apps/agent-engine/app/billing.py:4-22 | the limit of each plan, by name in any case, starter for any other |
| Webhook.InMonthCounts | apps/agent-engine/app/billing.py:24-33 | the count is of the tenant's own rows in that month |
| Webhook.RaceReachesBound | apps/agent-engine/app/main.py:57-90 | for every limit and k, a run in which racing webhooks bring a month to limit + k - 1 rows |
| Webhook.FiniteLimitsArePositive | apps/agent-engine/app/billing.py:4-9 | every finite plan allows a message, which the bound above assumes of the limit |
| Webhook.MessageQueue.CountThisMonth | apps/agent-engine/app/billing.py:24-33 | the month's rows of a tenant |
| Webhook.MessageQueue.EnforceTenantBilling | apps/agent-engine/app/billing.py:12-35 | refuses inactive tenants and exhausted finite plans, nothing else |
| Webhook.MessageQueue.EnqueueMessage | apps/agent-engine/app/queue.py:46-87 | adds a row unless the tenant has one with that message id |
| Webhook.MessageQueue.Receive | apps/agent-engine/app/main.py:34-103 | an uninterrupted delivery: check, then insert |

## Left out

- Isolation anomalies of the database: a transaction or single statement is one step. The campaign status depends on it, because the refresh counts other recipients' rows.
- Row locks held across steps: a claim takes the oldest eligible row that is not locked (`ClaimNext`); the run properties allow any eligible row, which includes every such choice.
- DeliveryQueue.DeliveryTables.EnqueueJob: inserts a row without a message id; the conflict on (tenant, message id) is `Webhook.MessageQueue.EnqueueMessage`.
- AppUsers.AccountService.Refresh: the checks of the session's expiry, app and secret are an input; `SessionRotation` computes them from the row.
- Texts that the queue stores and nothing reads back (responses, errors, provider ids), and the conversations, contacts and activities written beside a message.
- Template provider of an e-mail campaign: templates of e-mail channels always use Brevo, so the claim's test of it is not modelled.
- Choosing a campaign's contacts and building provider variables; a campaign starts from the list saying which recipients have a destination.
- Session and token strings: the pattern that splits a value into id and secret is an absent or present value.
- Checks of tenant and app status in `app-auth.service.ts`: they only let fewer requests through. User status is in `AppUsers`, the interleaving of rotation in `SessionRotation`.
- Signing of access tokens, hashing, random bytes and encryption.
- Webhook signature validation and channel resolution.
- Unicode folding in slugify: a function assumed only to leave slug text alone.
- RateLimit.SlidingWindowBound: assumes a clock that does not go back.
- Floating-point error of averages and null durations; averages are exact and rounded half up.
- Rejection of template updates by provider and subject checks: a rejected update changes nothing.
- Overdue subscriptions, plan-limit reports, list and search queries, controllers, guards and the web console.
