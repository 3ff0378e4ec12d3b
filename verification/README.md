# A verified model of a multi-tenant HR system

The repository is an HR system for several companies: a browser client, an API server and a database.
This project models the parts that hold state, interleave, or work on strings and bytes, and proves what
they keep. `dafny verify dfyconfig.toml` checks all of it.

| file | what it models |
|---|---|
| `ApiClient.dfy` | the browser's request client as an event loop: company parameter and abort epoch, CSRF bootstrap, single-flight refresh with its queue |
| `ApiOutcomes.dfy` | what the answers to that client decide: responses, errors, tokens, aborts |
| `ClientStores.dfy`, `StoreOutcomes.dfy` | the auth and company stores: stale answers, the active company and its mirror |
| `Sessions.dfy`, `SessionOutcomes.dfy` | refresh-token families, password changes and reset grants, one request per step; when each is granted and what it changes |
| `RefreshRaces.dfy` | the same families, one database query per step, under any interleaving |
| `Lockout.dfy` | the sliding lockout window, the lock, recovery codes |
| `AudienceJson.dfy`, `Announcements.dfy`, `AnnouncementRules.dfy` | stored id lists and the substring query on them; writing, reaching, counting and publishing announcements |
| `AuditCsv.dfy` | the CSV export and an RFC 4180 reader |
| `AuditChain.dfy`, `AuditTrail.dfy` | the audit log's hash chain: appending, verifying, what a hash determines |
| `DeviceTokens.dfy` | the credential of an attendance terminal |
| `Attendance.dfy`, `PunchIngest.dfy`, `AttendanceRules.dfy` | the attendance table, check-in and check-out, punches from terminals |
| `PayrollDays.dfy`, `PayrollKinds.dfy`, `Sweeps.dfy`, `SweepPolicies.dfy` | payroll's day count; the policy index and the two nightly sweeps |
| `Overtime.dfy`, `OvertimeOutcomes.dfy` | filing overtime under an advisory lock, one statement per step |
| `ByteScan.dfy`, `Liveness.dfy` | Exif search and printable scan; blink count, challenges, pixel measures |
| `DataScope.dfy`, `TenantScope.dfy` | merging data-scope rows and resolving them to a filter |
| `Wrappers.dfy` | shared datatypes and string functions |

Each machine is a state with a step function; a run folds it over a list of events, and the main results
are about every run. Code that the program runs imperatively is a class whose methods are proved to
produce exactly the modelled step, so the lemmas about the steps are lemmas about the methods.

## Where the code differs from what it says

* The overtime lock is released in a `finally` inside the transaction, before the commit. The comment says
  it serializes creations; `Overtime.ReleaseBeforeCommitDoubles` shows the gap and
  `Overtime.WellTimedRunsNeverDouble` what closes it. The key also holds the raw date text, and the status
  update does not look at the status it replaces. The audit log appends under the same lock; what a gap would
  mean there is `AuditChain.ForkIsReportedAsTampering`.
* The integrity check without a company reads the chains of all companies as one and passes only when
  there is a single one (`AuditChain.MixedCheckPassesExactly`).
* The canonical text of an audit entry joins its fields with a separator they may contain
  (`AuditChain.CanonicalDeterminesContentExactly` gives the exact condition).
* The user read of a refresh does not select `lockedUntil`, so a lock never refuses a refresh; the model
  follows the code.
* A stale login or profile answer leaves the loading flag as it is (`ClientStores.LoadingGetsStuckExactly`).
* A punch is applied and recorded by two writes (`PunchIngest.LostRecordAppliesTwiceExactly`).
* `LATE` and `lateMinutes > 0` are not the same (`Attendance.LateWithoutMinutesExactly`).
* Updating an announcement does not refuse the platform-wide audience; only creating does, and the request
  schema keeps it out of both.
* The rows of a "most restrictive" merge are ranked, but a higher rank is not a smaller reach: with UUIDs of
  any branch and department, `DataScope.HigherRankReachesOthers`; when one reach is inside another is
  `DataScope.ScopeNarrowsExactly`.
* A refresh that fails clears the company and the mirrors but not the auth store, which still holds its user
  (`ClientStores.LostSessionKeepsTheUser`).
* The settings admit a maximum of zero login attempts, for which no password login succeeds and a lockout
  that takes time does not bound the guesses (`Lockout.BoundedExactly`).

The substring query on stored audiences is exact for the UUIDs the system uses
(`Announcements.UuidAudiencesAreExact`). As a helper it has limits that these ids never meet: it finds ","
in every list of two ids or more and misses ids that JSON escapes (`AudienceJson.QueryFindsExactly`,
`AudienceJson.FoundWhereverItBelongsExactly`).

## Model

| member | source | states |
|---|---|---|
| ApiClient.EveryRunIsSafe | frontend/src/services/api.ts:149-215 | In every run of the event loop: a company-scoped request is only dispatched with the company active at that moment and in one company epoch; an unsafe request never without a CSRF header; no request more than three times; one refresh at a time; requests wait only while it runs |
| ApiClient.RunKeepsInv | frontend/src/services/api.ts:5-20 | The invariant behind it (epochs, parameters, retry flags, queue, leader, bootstrap, dispatch log) is kept by every run |
| ApiClient.StepKeepsInv | frontend/src/services/api.ts:167-215 | Every synchronous block keeps that invariant |
| ApiClient.SwitchStopsPreparedRequests | frontend/src/services/api.ts:72-94 | A company-scoped request prepared before a company switch is never sent after it, from the queue, a CSRF retry or a wait for a token |
| ApiClient.AbortedNeverSent | frontend/src/services/api.ts:79-94 | A request whose combined signal is aborted is never sent again in any run |
| ApiClient.AbortedStaysAborted | frontend/src/services/api.ts:79-94 | No step clears an aborted signal or sends such a request |
| ApiClient.SignalAborts | frontend/src/services/api.ts:79-94 | Combined signals never forget an abort |
| ApiClient.ListenerAborts | frontend/src/services/api.ts:72-77 | A signal that listens to an epoch is aborted once that epoch is over |
| ApiClient.QueueLeavesWithLeader | frontend/src/services/api.ts:189-194 | A queued request stays queued until the leader finishes and then shares its outcome |
| ApiClient.FinishEmptiesQueue | frontend/src/services/api.ts:203-214 | When the leader finishes nobody waits and nobody leads; after a failed refresh the company and the CSRF token are gone |
| ApiClient.RequestsTerminate | frontend/src/services/api.ts:176-218 | In any run a request takes at most as many steps of its own as its measure, at most 52 |
| ApiClient.StepMoves | frontend/src/services/api.ts:176-218 | Every step lowers or keeps every request's measure, and lowers it for the request it belongs to |
| ApiClient.NextOwnStep | frontend/src/services/api.ts:108-145 | An unsettled request that is not queued always has an enabled step of its own or of the CSRF bootstrap |
| ApiClient.NoRequestIsStuck | frontend/src/services/api.ts:131-215 | While a request is unsettled, it, its bootstrap or its leader can move without callers or users |
| ApiClient.AnswersSettleEverything | frontend/src/services/api.ts:131-218 | From every state that keeps the invariant some run of answers alone, no longer than its potential, settles every request |
| ApiClient.RunsOfAnswersEnd | frontend/src/services/api.ts:176-218 | Without new calls and switches no run is longer than that potential: the client comes to rest |
| ApiClient.RestMeansSettled | frontend/src/services/api.ts:131-215 | When no answer can come any more every request has been settled |
| ApiClient.Client.OnCompanyChange | frontend/src/services/api.ts:73-77 | Aborts the current epoch and opens the next, only when the id changes |
| ApiClient.Client.EnsureCsrfToken | frontend/src/services/api.ts:108-124 | Joins a bootstrap, answers the kept token, or starts one bootstrap; the new state is the modelled step |
| ApiClient.Client.RequestInterceptor | frontend/src/services/api.ts:149-162 | Company parameter, combined signal and CSRF wait of one request, as the modelled step |
| ApiClient.Client.DispatchRequest | frontend/src/services/api.ts:85-93 | A request whose signal is aborted settles as failed without being sent; otherwise it is sent with the company parameter and token it carries |
| ApiClient.Client.ResponseInterceptor | frontend/src/services/api.ts:167-218 | One response: success, CSRF retry, join or lead a refresh, or settle, as the modelled step |
| ApiClient.Client.ProcessQueue | frontend/src/services/api.ts:11-20 | Settles every queued request alike and empties the queue |
| ApiClient.Client.AfterRefresh | frontend/src/services/api.ts:201-214 | The leader's end: queue, session clearing, own retry, flag, as one step |
| ApiOutcomes.RunSettlesExactly | frontend/src/services/api.ts:166-218 | In every run a caller gets a response exactly when a success answer to the request came in, and an error exactly when an event turned it away |
| ApiOutcomes.PhasesExactly | frontend/src/services/api.ts:149-218 | Every phase a request can be in, and every stage of a refresh, exactly by what brings it there: who is called again, who waits, who leads, when a refresh works or fails |
| ApiOutcomes.KeptTokenExactly | frontend/src/services/api.ts:107-147 | The kept CSRF token is the last one answered to a session endpoint, a refresh or a fetch; a logout, a failed refresh or a fetch drops it, and nothing else |
| ApiOutcomes.KeptTokenIsTheLast | frontend/src/services/api.ts:167-173 | In every run a kept token is the one the last such answer brought |
| ApiOutcomes.BootstrapExactly | frontend/src/services/api.ts:108-124 | One fetch at a time: exactly where it begins, what it answers, and when it ends; an answer without a token is an error |
| ApiOutcomes.WaitsExactly | frontend/src/services/api.ts:108-124 | A wait for a token is answered with the kept token or with what the fetch it waits for brought, and keeps that answer |
| ApiOutcomes.ConfigsExactly | frontend/src/services/api.ts:149-192 | What may change of a request: the header is the token its wait was answered with, the parameter and the signal are bound at preparation, each flag is spent by its own refusal, and a company-independent request is left alone |
| ApiOutcomes.NetworkExactly | frontend/src/services/api.ts:79-94 | Nothing is sent but by an unaborted dispatch, and then what the request carries, in the company active at the moment |
| ApiOutcomes.SentTokensWereAnswered | frontend/src/services/api.ts:149-162 | Every CSRF header sent in a run is a token that came in an answer of that run |
| ApiOutcomes.CompanyExactly | frontend/src/services/api.ts:72-77 | The active company changes to the chosen one, or to none when a refresh fails; each change is one epoch |
| ApiOutcomes.AbortedExactly | frontend/src/services/api.ts:79-94 | A combined signal is aborted exactly by its caller or by the end of an epoch it listens to |
| Sessions.OneLiveTokenPerFamily | backend/src/modules/auth/auth.service.ts:424-470 | In every run of requests a family has at most one unrevoked token, its newest, and consecutive tokens are at most the idle window apart when that is non-zero |
| Sessions.RunKeepsInv | backend/src/modules/auth/auth.service.ts:424-500 | The invariant over chains, grants and issued access tokens is kept by every run |
| Sessions.ReplayKillsChain | backend/src/modules/auth/auth.service.ts:430-444 | Replaying an earlier, still valid token of a chain is refused, revokes every token of its family and touches no other |
| Sessions.RefreshSucceedsExactly | backend/src/modules/auth/auth.service.ts:424-470 | A refresh succeeds exactly for a live, unexpired, not idle token of an account that is present and not barred |
| Sessions.NextOfFamily | backend/src/modules/auth/auth.service.ts:585-636 | The successor of a live token may follow it: its family is revoked but for it, and it is young enough |
| Sessions.LiveIsNewest | backend/src/modules/auth/auth.repository.ts:143-159 | The only row of a family that can be live is its newest |
| Sessions.DeadFamilyStaysDead | backend/src/modules/auth/auth.repository.ts:150-159 | With one request per step, a family whose tokens are all revoked stays so in every run |
| Sessions.SessionVersionCounts | backend/src/modules/auth/auth.repository.ts:218-228 | sessionVersion grows by exactly one per password or authority change of that user, and by nothing else |
| Sessions.PasswordChangeEndsSessions | backend/src/modules/auth/auth.service.ts:525-533 | After a change or reset, whatever follows, no earlier refresh token of the user, no token of its families and no earlier access token is accepted |
| Sessions.OneUnusedGrant | backend/src/modules/auth/auth.repository.ts:248-269 | In every run a user has at most one unused reset grant, and a user's grants are more than 60 seconds apart |
| Sessions.GrantChangesPasswordOnce | backend/src/modules/auth/auth.repository.ts:289-338 | In every run one grant changes a password at most once, and a used one never |
| Sessions.ConsumeClaimsFirst | backend/src/modules/auth/auth.repository.ts:289-338 | Consuming claims the grant before looking at the account; it changes the password exactly for a usable grant of a present, unbarred account |
| Sessions.AuthService.GenerateTokenPair | backend/src/modules/auth/auth.service.ts:585-636 | Inserts one row of the family and issues an access token of the current session version |
| Sessions.AuthService.LoginTail | backend/src/modules/auth/auth.service.ts:164-208 | Refuses a barred account, otherwise opens a fresh family |
| Sessions.AuthService.RefreshTokens | backend/src/modules/auth/auth.service.ts:424-500 | Reuse, expiry and idle checks, unconditional revocation, user check and rotation, as the modelled request |
| Sessions.AuthService.LogoutSession | backend/src/modules/auth/auth.service.ts:320-343 | Revokes the family of a stored token |
| Sessions.AuthService.ChangeUserPassword | backend/src/modules/auth/auth.service.ts:502-550 | Policy, current password and reuse checks, then the new hash, version and revocations |
| Sessions.AuthService.RequestPasswordReset | backend/src/modules/auth/password-reset.service.ts:33-64 | Throttled creation of a grant; an undelivered one is marked used |
| Sessions.AuthService.ConsumePasswordResetToken | backend/src/modules/auth/auth.repository.ts:289-338 | The transaction's claim, account check, password update and revocations |
| Sessions.AuthService.ResetUserPassword | backend/src/modules/auth/password-reset.service.ts:66-107 | Validates the grant and the new password, then consumes |
| SessionOutcomes.PasswordChangesExactly | backend/src/modules/auth/auth.service.ts:502-533 | A password changes exactly for its owner with the right current password, or by an unused, unexpired grant of an open account, and only to an allowed, different one |
| SessionOutcomes.PasswordChangeStores | backend/src/modules/auth/auth.service.ts:525-533 | What a granted change stores: the new hash, the next version, the revoked sessions and used grants of that user, and nothing of anybody else |
| SessionOutcomes.RefusedChangeKeepsAll | backend/src/modules/auth/auth.service.ts:502-523 | A refused change or reset changes nothing |
| SessionOutcomes.PasswordIsTheLastGranted | backend/src/modules/auth/auth.repository.ts:218-228 | In every run the stored password is the last one granted, and no other event changes it |
| SessionOutcomes.RequestGrantsExactly | backend/src/modules/auth/password-reset.service.ts:33-64 | A request leaves a redeemable hash exactly for an open account, a minute after its last request, when the mail was delivered, until it expires; it voids the older grants of that user only |
| SessionOutcomes.DeliveredGrantResets | backend/src/modules/auth/password-reset.service.ts:66-107 | A delivered hash changes the password of whom it was sent to until it expires |
| SessionOutcomes.SignsInExactly | backend/src/modules/auth/auth.service.ts:164-208 | An accepted login is granted exactly to an open account, and adds one token pair |
| SessionOutcomes.FreshPairWorks | backend/src/modules/auth/auth.service.ts:585-636 | A pair just handed out is accepted, and its refresh token can be refreshed while it is neither expired nor idle |
| SessionOutcomes.RefreshRevokesExactly | backend/src/modules/auth/auth.service.ts:424-500 | Exactly which rows a refresh revokes: the presented one, and its family on a replay or when idle; and the row it adds |
| SessionOutcomes.UnknownTokenKeepsAll | backend/src/modules/auth/auth.service.ts:320-335 | A token that is not stored refreshes and revokes nothing, and signing it out succeeds without effect |
| SessionOutcomes.LogoutEndsTheFamily | backend/src/modules/auth/auth.service.ts:320-343 | After a logout the family of the token is dead in every later run; no other family is touched |
| SessionOutcomes.RevokesOwnSessionExactly | backend/src/modules/auth/auth.repository.ts:365-370 | Ending a session is granted to its owner and revokes that one row |
| SessionOutcomes.ShutOutGetsNothing | backend/src/modules/auth/auth.service.ts:642-648 | Until its status is set, a deleted or shut-out account gets no token and has none accepted in any run |
| SessionOutcomes.AccountsExactly | backend/src/modules/auth/auth.repository.ts:218-228 | What every event leaves of an account: made active by a login or a reset, set by an administrator, deleted or added |
| RefreshRaces.NeverLiveAgainExactly | backend/src/modules/auth/auth.service.ts:424-470 | At single-query granularity a family never becomes live again under any interleaving exactly when all its tokens are revoked and no refresh past the check is outstanding |
| RefreshRaces.RunKeepsDeath | backend/src/modules/auth/auth.repository.ts:143-159 | The direction kept by every query of every request |
| RefreshRaces.OutstandingRevives | backend/src/modules/auth/auth.service.ts:449-470 | The other direction: from any outstanding refresh a run that makes the family live |
| RefreshRaces.UninterruptedRefresh | backend/src/modules/auth/auth.service.ts:424-500 | A refresh whose queries nobody interrupts leaves the rows the one-step refresh leaves |
| RefreshRaces.UninterruptedLogout | backend/src/modules/auth/auth.service.ts:320-343 | The same for a logout |
| RefreshRaces.SingleQueries | backend/src/modules/auth/auth.repository.ts:143-159 | Logins, password changes and ended sessions do to the rows what their one-step forms do |
| RefreshRaces.RunKeepsOneClaimExactly | backend/src/modules/auth/auth.repository.ts:143-148 | In every interleaving a family has one claimant throughout, a live token or one refresh, exactly when no refresh passes the check while another of the family is outstanding |
| RefreshRaces.StepKeepsOneClaimExactly | backend/src/modules/auth/auth.service.ts:430-457 | The same for one query |
| RefreshRaces.OneClaimExactly | backend/src/modules/auth/auth.service.ts:424-470 | One claimant a family is exactly the condition under which no further run without overtaking leaves two live tokens in a family |
| RefreshRaces.OvertakingDoubles | backend/src/modules/auth/auth.service.ts:449-470 | Any overtaking check can be followed, with no further check, to two live tokens of the family |
| RefreshRaces.OverlapLeavesTwoLiveTokens | backend/src/modules/auth/auth.repository.ts:143-148 | Two overlapping refreshes of any token that passes the check leave two live tokens of its family: why the one-live-token invariant is stated per request |
| Lockout.LoginSucceedsExactly | backend/src/modules/auth/auth.service.ts:210-279 | A password login succeeds exactly for an open account, right credentials and second factor, a max of at least 1, and fewer than max failures in the trailing window |
| Lockout.LoginOutcomesExactly | backend/src/modules/auth/auth.service.ts:210-279 | Which answer every other password login gets, and what it leaves: who is forbidden, locked out, told of a wrong guess or asked for the second factor |
| Lockout.VerifiedLoginExactly | backend/src/modules/auth/auth.service.ts:164-190 | A login by a verified identity succeeds exactly for an active or formerly locked account without a lock in force; which refusal every other account gets, and what it leaves |
| Lockout.ResetLiftsTheLock | backend/src/modules/auth/auth.repository.ts:289-338 | A password reset lifts a lock and forgets the failures, but opens no account that was shut out |
| Lockout.LocksExactly | backend/src/modules/auth/auth.service.ts:658-672 | An account is locked exactly by a guess or a right login that meets a full window |
| Lockout.ShutOutStaysOut | backend/src/modules/auth/auth.service.ts:642-648 | In every run an inactive or suspended account is refused by every way in and stays unchanged |
| Lockout.CounterCountsGuesses | backend/src/modules/auth/auth.service.ts:658-672 | The counter of failed attempts is the number of wrong guesses since the last success |
| Lockout.WindowHoldsAtMost | backend/src/modules/auth/auth.repository.ts:169-177 | No window of the lockout's length holds more than max+1 failure rows |
| Lockout.GuessesAreBounded | backend/src/modules/auth/auth.service.ts:658-699 | In every run without a success, any window sees at most max+1 wrong guesses |
| Lockout.EveryGuessLeavesARow | backend/src/modules/auth/auth.service.ts:674-699 | Each refused guess of such a run is one failure row |
| Lockout.BoundIsTight | backend/src/modules/auth/auth.service.ts:658-672 | For every max from 1 up to the window the bound is reached: guesses at 1 to max+1 are all compared |
| Lockout.BoundedExactly | backend/src/config/index.ts:72-73 | For which settings every run without a success keeps every window to max+1 guesses: max at least 1, or max 0 with an empty lockout, or max at least -1 with a negative one |
| Lockout.ZeroMaxBreaksTheBound | backend/src/modules/auth/auth.service.ts:658-672 | With max 0 and any window above 0 two wrong guesses are compared in one window |
| Lockout.LockShutsOut | backend/src/modules/auth/auth.service.ts:228-245 | While a lock is in force every login is refused and nothing is recorded |
| Lockout.LapsedLockForgives | backend/src/modules/auth/auth.service.ts:228-279 | When a lock lapses only the locking failure can still count, and a failure re-locks at once exactly for max 1 at that instant |
| Lockout.RunKeepsInv | backend/src/modules/auth/auth.service.ts:658-699 | Over strictly increasing clocks the failure rows stay ordered and spread, and a full window ends in a lock |
| Lockout.CountMeans | backend/src/modules/auth/auth.repository.ts:169-177 | At least k rows in the window means the k-th last row is in it |
| Lockout.LoginGuard.LogFailedAttempt | backend/src/modules/auth/auth.service.ts:674-699 | One failure row |
| Lockout.LoginGuard.HandleFailedAttempt | backend/src/modules/auth/auth.service.ts:658-672 | One more failure, and the lock when the window is full |
| Lockout.LoginGuard.UpdateLoginSuccess | backend/src/modules/auth/auth.repository.ts:179-196 | Deletes the failure rows and lifts the lock |
| Lockout.LoginGuard.LoginWithPassword | backend/src/modules/auth/auth.service.ts:210-279 | The checks of a password login in their order, as the modelled step |
| Lockout.LoginGuard.LoginWithVerifiedIdentity | backend/src/modules/auth/auth.service.ts:164-190 | The status and lock checks of a login by a verified identity |
| Lockout.VerifyMfaCode | backend/src/modules/auth/auth.service.ts:345-372 | A recovery code is consumed: the first match goes, the rest stay in order, and a code that matches one hash never works again |
| AudienceJson.ParseInvertsStringify | backend/src/modules/announcement/announcement-admin.service.ts:114-123 | The stored text of an id list reads back as that list, whatever the ids contain |
| AudienceJson.EscapesExactly | backend/src/modules/announcement/announcement-admin.service.ts:114-123 | Which characters the written text escapes, and in which of the two forms |
| AudienceJson.QueryFindsExactly | backend/src/modules/announcement/announcement.repository.ts:57-75 | In any list, an id that JSON leaves as it is is found exactly when it is in the list, or it is "," and the list has two ids or more, or an id of the list ends in a quote and then it |
| AudienceJson.QueryFindsMembersExactly | backend/src/modules/announcement/announcement.repository.ts:57-75 | In lists whose ids hold no quote, such an id is found exactly when it is in the list, or it is "," and the list has two ids or more |
| AudienceJson.FoundWhereverItBelongsExactly | backend/src/modules/announcement/announcement.repository.ts:57-75 | An id is found in every list that holds it exactly when JSON leaves it as it is |
| AudienceJson.UuidsArePlain | backend/src/modules/announcement/announcement.dto.ts:19 | UUIDs are such ids, and neither empty nor "," |
| Announcements.AcceptedAudience | backend/src/modules/announcement/announcement-admin.service.ts:59-96 | Accepted input has ids only for its own audience type, at least one, all of the company |
| Announcements.WrittenColumns | backend/src/modules/announcement/announcement-admin.service.ts:114-123 | A written row has the list of its own audience type and no other; it is not empty and reads back as the input |
| Announcements.ReachesExactlyTheIntended | backend/src/modules/announcement/announcement.repository.ts:57-75 | For a row written from accepted input without quotes in its ids, and a reader whose units JSON leaves as they are, the database prefilter and the in-memory check both select exactly the intended readers |
| Announcements.UuidAudiencesAreExact | backend/src/modules/announcement/announcement.dto.ts:19 | With UUIDs, the only ids the request schema admits, a created announcement is found for exactly the intended readers, and fetched and visible agree |
| Announcements.CreatedIsSeenExactly | backend/src/shared/engagement/announcement.ts:114-124 | Once published, fetched and visible agree, and hold exactly for intended readers inside the window when not hidden |
| Announcements.EscapedIdIsMissed | backend/src/modules/announcement/announcement.repository.ts:57-75 | A limit of the query: every id that JSON escapes, alone on a list, is matched in memory and missed by the prefilter |
| Announcements.ConditionsMeanPrefilter | backend/src/modules/announcement/announcement.repository.ts:57-75 | The pushed conditions select the rows of the prefilter |
| Announcements.AudienceWhere | backend/src/modules/announcement/announcement.repository.ts:57-75 | Some pushed condition holds of a row exactly when the prefilter does |
| Announcements.MarkReadCountsReaders | backend/src/modules/announcement/announcement.repository.ts:124-147 | Views stay equal to the number of readers exactly when a first reading is counted against the row's own company |
| Announcements.OnePublisherWins | backend/src/modules/announcement/announcement-admin.service.ts:194-223 | In any interleaving of publishes, archives and edits, at most one publish of an announcement wins |
| Announcements.StepKeepsClaims | backend/src/modules/announcement/announcement-admin.service.ts:194-244 | Every query keeps the invariant behind it |
| Announcements.AnnouncementService.CheckAudience | backend/src/modules/announcement/announcement-admin.service.ts:59-96 | The loop over the audience fields, with its errors in order |
| Announcements.AnnouncementService.CreateAnnouncement | backend/src/modules/announcement/announcement-admin.service.ts:126-157 | Refuses ALL, validates, and inserts the row or nothing |
| Announcements.AnnouncementService.UpdateAnnouncement | backend/src/modules/announcement/announcement-admin.service.ts:159-192 | Refuses archived rows, validates, and rewrites the row keeping status, company and views |
| Announcements.AnnouncementService.MarkAsRead | backend/src/modules/announcement/announcement.repository.ts:124-147 | Records the reader once, counts a first reading, and keeps views equal to readers |
| AnnouncementRules.CreatesExactly | backend/src/modules/announcement/announcement-admin.service.ts:59-157 | A new announcement is accepted exactly for an addressed audience of the company and ordered times, and is stored as asked |
| AnnouncementRules.UpdatesExactly | backend/src/modules/announcement/announcement-admin.service.ts:159-183 | An edit is accepted exactly for a row that is not archived; it keeps company, status and views |
| AnnouncementRules.RefusalsExactly | backend/src/modules/announcement/announcement-admin.service.ts:59-112 | Which fault of an audience or its times is reported |
| AnnouncementRules.FirstFaultIsReported | backend/src/modules/announcement/announcement-admin.service.ts:126-183 | The order of the refusals of creating and editing |
| AnnouncementRules.UpdatedIsSeenExactly | backend/src/modules/announcement/announcement-admin.service.ts:159-192 | An edited, published announcement is found by exactly the newly intended readers inside its new window |
| AnnouncementRules.IntendedExactly | backend/src/modules/announcement/announcement-admin.service.ts:25-33 | Who is meant, list by list |
| AnnouncementRules.CompaniesSeeTheirOwn | backend/src/shared/engagement/announcement.ts:74-113 | Nobody of another company sees an announcement of a company; platform-wide ones are seen by all |
| AnnouncementRules.ReadingsExactly | backend/src/modules/announcement/announcement.repository.ts:124-147 | A reading is recorded once, counted once for the row's company, and told apart from a repeated one |
| AnnouncementRules.StatusOnlyAdvances | backend/src/modules/announcement/announcement-admin.service.ts:194-244 | In every interleaving a status never goes back and a row never changes its company |
| AnnouncementRules.StatusMovesExactly | backend/src/modules/announcement/announcement-admin.service.ts:194-244 | A row becomes published exactly by a claim on a draft of its company, and archived exactly by an archiver |
| AnnouncementRules.PublishRuns | backend/src/modules/announcement/announcement-admin.service.ts:194-223 | An uninterrupted publish succeeds exactly for a draft of the company whose window is not over, and dates it |
| AnnouncementRules.ArchiveRuns | backend/src/modules/announcement/announcement-admin.service.ts:225-244 | An uninterrupted archive takes the row away from every reader |
| AnnouncementRules.PublishedIsSeenExactly | backend/src/shared/engagement/announcement.ts:114-124 | Created, then published, an announcement is found by exactly whom it names, from then on |
| AuditCsv.ReadInvertsExport | backend/src/modules/audit-log/audit-log.controller.ts:56-59 | A reader for section 2 of RFC 4180 with LF records returns the titles and exactly the text of every field, row by row |
| AuditCsv.RecordHoldsEveryColumn | backend/src/modules/audit-log/audit-log.controller.ts:148-173 | Under each title stands that column's value of the audit row |
| AuditCsv.ExportDeterminesRows | backend/src/modules/audit-log/audit-log.controller.ts:161-178 | Two exports are equal exactly when their rows hold equal texts, missing values being empty |
| AuditCsv.QuotedIsReadBack | backend/src/modules/audit-log/audit-log.controller.ts:56-59 | Doubling quotes inside quotes reads back as the text |
| AuditCsv.JoinedCellsAreReadBack | backend/src/modules/audit-log/audit-log.controller.ts:161-174 | Cells joined by commas read back as their fields |
| AuditCsv.JoinedLinesAreReadBack | backend/src/modules/audit-log/audit-log.controller.ts:178 | Lines joined by line feeds read back as their records |
| AuditChain.VerifyAuditChain | backend/src/shared/security/audit-hash.ts:63-75 | Answers nothing exactly for an intact list, otherwise the first entry that fails |
| AuditChain.EqualEndsEqualHistory | backend/src/shared/security/audit-hash.ts:41-57 | Two lists that verify and end in the same hash have equal length and equal canonical content, or two texts hashed in them collide |
| AuditChain.CanonicalDeterminesContentExactly | backend/src/shared/security/audit-hash.ts:27-39 | The canonical text determines an entry's content exactly when none of its seven text fields holds the separator |
| AuditChain.SeparatorMakesATwin | backend/src/shared/security/audit-hash.ts:27-39 | For any entry with a separator in a field, another entry with the same canonical text |
| AuditChain.RunKeepsChains | backend/src/shared/middleware/AuditLog.ts:93-143 | After any appends with any clock readings every company's chain is strictly ordered, linked and intact |
| AuditChain.CompanyCheckPasses | backend/src/modules/audit-log/audit-log.controller.ts:105-133 | The integrity check of one company finds nothing after any run |
| AuditChain.MixedCheckPassesExactly | backend/src/modules/audit-log/audit-log.controller.ts:105-133 | The check without a company passes exactly when all entries are of one company, short of a collision |
| AuditChain.SortedSelectionIsTheChain | backend/src/modules/audit-log/audit-log.controller.ts:108-110 | Ordering a company's entries by creation time gives its chain and nothing else |
| AuditChain.AuditLog.AppendAuditLogEntry | backend/src/shared/middleware/AuditLog.ts:93-143 | Appends one entry to its company's chain and leaves every other chain as it was |
| AuditChain.ForkIsReportedAsTampering | backend/src/shared/middleware/AuditLog.ts:88-105 | Two entries hashed after the same one do not verify one after the other, short of a collision: what the lock must prevent |
| AuditTrail.RunRecordsEveryCall | backend/src/shared/middleware/AuditLog.ts:88-143 | In every run each call is recorded in its place and as it was made: dated by its clock or a millisecond after the entry of its company before it, and hashed with that entry's hash |
| AuditTrail.EqualEndsEqualTrails | backend/src/shared/security/audit-hash.ts:41-75 | With a digest no two texts share, two trails that verify and end alike hold the same canonical texts, and the same fields wherever these hold no separator |
| AuditTrail.VerifiesExactly | backend/src/shared/security/audit-hash.ts:41-57 | An entry with a hash of full length verifies exactly when that hash is the digest of its text, in either case of the letters |
| DeviceTokens.SplitInvertsMintExactly | backend/src/modules/attendance/attendance-device.service.ts:129-135 | A token splits into an id and a secret exactly when it was minted from them, both non-empty and the id without a separator |
| DeviceTokens.AuthenticatesExactly | backend/src/modules/attendance/attendance-device.service.ts:129-155 | A token authenticates a device exactly when it is the id and a secret with the stored digest, and the device is active and not deleted |
| DeviceTokens.WrongSecretLearnsNothing | backend/src/modules/attendance/attendance-device.service.ts:144-147 | Without the right secret the answer is the same whatever devices exist |
| DeviceTokens.AnswersExactly | backend/src/modules/attendance/attendance-device.service.ts:129-155 | What the holder of a device id and some secret is told; only the right secret learns of a deactivation |
| DeviceTokens.DeviceRegistry.Register | backend/src/modules/attendance/attendance-device.service.ts:57-83 | Refuses a taken serial number; otherwise stores the digest and returns a token that authenticates the new device |
| Attendance.LateExactly | backend/src/modules/attendance/attendance.service.ts:526-539 | A day opened as present is late exactly when opened after the tolerated start, with at least the tolerated minutes |
| Attendance.LateWithoutMinutesExactly | backend/src/modules/attendance/attendance.service.ts:526-539 | A late day without late minutes occurs exactly for no tolerance and less than half a minute |
| Attendance.MinutesAreNearest | backend/src/shared/attendance/scheduled-time.ts:215-217 | Recorded minutes are nearest to the elapsed time |
| PunchIngest.ResendingIsInert | backend/src/modules/attendance/attendance-device.service.ts:166-192 | After a batch and anything since, sending any selection of its punches again changes no row and answers DUPLICATE to each |
| PunchIngest.OneRowPerPunch | backend/src/modules/attendance/attendance-device.service.ts:179-244 | A new punch adds exactly one row with its outcome; a seen one changes nothing |
| PunchIngest.RunKeepsUnique | backend/src/modules/attendance/attendance-device.service.ts:179-192 | Each device and external id is recorded at most once in every run |
| PunchIngest.LostRecordAppliesTwiceExactly | backend/src/modules/attendance/attendance-device.service.ts:230-235 | If the punch row is lost after the day was written, a resend changes the day exactly for an opening AUTO punch that may close, and then closes it at the opening instant |
| PunchIngest.DayTakesOneOpeningAndOneClosing | backend/src/modules/attendance/attendance-device.service.ts:252-291 | With people, sweeps and deletions in between, a day only moves from missing to open to closed; at most one punch opens it, at most one closes it, none after |
| PunchIngest.StepMovesOn | backend/src/modules/attendance/attendance.service.ts:496-501 | No writer of the table moves a day back |
| PunchIngest.ApplyingMovesTheDay | backend/src/modules/attendance/attendance-device.service.ts:252-291 | An applied punch writes only its day: it opens a missing one or closes an open one at its instant |
| PunchIngest.RunKeepsTraced | backend/src/modules/attendance/attendance-device.service.ts:230-235 | Every punch recorded as applied names a day whose check-in or check-out is its instant |
| PunchIngest.IngestIsARun | backend/src/modules/attendance/attendance-device.service.ts:166-177 | A batch does what its punches do one after another |
| PunchIngest.RowsAdded | backend/src/modules/attendance/attendance-device.service.ts:179-244 | A batch adds one punch row per punch that is not a duplicate |
| PunchIngest.CountsSumUp | backend/src/modules/attendance/attendance-device.controller.ts:83-96 | The four counts of an answer add up to its outcomes |
| PunchIngest.Report | backend/src/modules/attendance/attendance-device.controller.ts:83-96 | The tally equals the outcomes of each status and sums to the punches received |
| PunchIngest.DeviceService.ApplyPunch | backend/src/modules/attendance/attendance-device.service.ts:252-291 | Writes the day of the punch or refuses with the source's error |
| PunchIngest.DeviceService.IngestOnePunch | backend/src/modules/attendance/attendance-device.service.ts:179-244 | One punch, as the modelled step |
| PunchIngest.DeviceService.IngestBatch | backend/src/modules/attendance/attendance-device.service.ts:166-177 | The batch loop, with one outcome per punch and one row per new punch |
| AttendanceRules.PunchAppliedExactly | backend/src/modules/attendance/attendance-device.service.ts:179-291 | A new punch of a known employee is applied exactly when its direction lets it do what the day allows: IN opens, OUT closes, AUTO does either; it is recorded as sent and writes only a day of the device's company |
| AttendanceRules.DirectionsExactly | backend/src/modules/attendance/attendance-device.service.ts:252-291 | The same for the row it writes |
| AttendanceRules.RefusalsExactly | backend/src/modules/attendance/attendance-device.service.ts:265-291 | Where all attempts pass, which refusal each direction meets on each day |
| AttendanceRules.OwnDayDecidesFirst | backend/src/modules/attendance/attendance-device.service.ts:252-283 | A live day of the company refuses an IN, and none an OUT, before anything else is looked at |
| AttendanceRules.OneOpeningOneClosing | backend/src/modules/attendance/attendance-device.service.ts:252-291 | In any run no two punches open one day, no two close it, and none opens a closed one |
| AttendanceRules.TimesNeverChange | backend/src/modules/attendance/attendance-device.service.ts:252-291 | In any run a recorded check-in or check-out is never changed or lost |
| AttendanceRules.AppliedPunchesAreOnTheirDays | backend/src/modules/attendance/attendance-device.service.ts:230-235 | From the first day on, every applied punch is the check-in or check-out of the day it names |
| AttendanceRules.WritersExactly | backend/src/modules/attendance/attendance.service.ts:791-800 | What people, the sweeps and deletion do to a day |
| AttendanceRules.UnknownCodeDoesNothing | backend/src/modules/attendance/attendance-device.service.ts:200-220 | A code of no employee is recorded and does nothing |
| AttendanceRules.DuplicateNamesItsDay | backend/src/modules/attendance/attendance-device.service.ts:179-192 | A duplicate is answered with the day the first one was applied to |
| AttendanceRules.CreatedExactly | backend/src/modules/attendance/attendance.service.ts:496-545 | A day is opened exactly in an open period, by an allowed method on an allowed day, where no row was ever written; what the row holds |
| AttendanceRules.OpeningRefusals | backend/src/modules/attendance/attendance.service.ts:496-545 | The first check an opening fails is the one reported |
| AttendanceRules.CheckedOutExactly | backend/src/modules/attendance/attendance.service.ts:791-812 | A day is closed exactly when it was opened and not closed, in an open period, by an allowed method; what changes of it |
| AttendanceRules.ClosingRefusals | backend/src/modules/attendance/attendance.service.ts:791-830 | The first check a closing fails is the one reported |
| AttendanceRules.WorkedMinutesAreNearest | backend/src/modules/attendance/attendance.service.ts:855-858 | Closed by hand, by a terminal or by the sweep, a day records the minutes nearest to the time worked |
| AttendanceRules.EarlyLeaveExactly | backend/src/modules/attendance/attendance.service.ts:838-853 | Leaving is early exactly before the tolerated end, and then by the minutes nearest to the time left |
| AttendanceRules.LateMinutesAreNearest | backend/src/modules/attendance/attendance.service.ts:526-539 | A late day records the minutes nearest to the time since its scheduled start |
| PayrollDays.CountPayrollAttendance | backend/src/shared/payroll/attendance-calendar.ts:138-170 | The counting loop gives the number of working days of each kind, or the range error |
| PayrollDays.DaysAddUp | backend/src/shared/payroll/attendance-calendar.ts:169 | Present, leave and absent days add up to the working days, and unpaid leave is leave |
| PayrollDays.CountsIgnoreOrder | backend/src/shared/payroll/attendance-calendar.ts:157-163 | The counts depend neither on the order of rows and ranges nor on rows that record no presence |
| PayrollDays.OneDay | backend/src/shared/payroll/attendance-calendar.ts:138-170 | For one day, absent is exactly a working day without presence and leave |
| PayrollKinds.CountsExactly | backend/src/shared/payroll/attendance-calendar.ts:138-170 | Leave, then trips, that end before they begin are refused; otherwise each count is the number of working days of its kind |
| PayrollKinds.KindsExactly | backend/src/shared/payroll/attendance-calendar.ts:157-168 | What each working day is: presence comes first, then paid leave, then unpaid leave |
| Sweeps.BuildIndex | backend/src/modules/attendance/auto-absent.service.ts:51-61 | The loop over policy rows builds an index of each company's branch rows and fallback |
| Sweeps.IndexAgreesWithDirect | backend/src/modules/attendance/auto-absent.service.ts:81-84 | The index answers every employee as the direct lookup does: own branch's row if any, else the company-wide row, else off |
| Sweeps.EnabledExactly | backend/src/modules/attendance/auto-checkout.service.ts:66-68 | A company is kept exactly when its policy is on for some branch or the rest |
| Sweeps.ClosedRowsEndLater | backend/src/modules/attendance/auto-checkout.service.ts:122-141 | Only candidates change; a closed row ends after it began, at its scheduled end, with no more minutes than that |
| Sweeps.SecondCheckoutClosesNothing | backend/src/modules/attendance/auto-checkout.service.ts:90-144 | A second run closes nothing and finds just the rows the first one skipped |
| Sweeps.AbsentSweepWritesExactly | backend/src/modules/attendance/auto-absent.service.ts:77-109 | A row is added exactly for each active, covered employee of an open period whose working day has no leave, trip or row, in the companies before the first one whose calendar fails; the others stay |
| Sweeps.CompletedExactly | backend/src/shared/payroll/attendance-calendar.ts:50-94 | A company is completed exactly when neither it nor an earlier one has a covered employee whose working day cannot be told, for a missing, ambiguous or malformed calendar or shift |
| Sweeps.SecondAbsentAddsNothing | backend/src/modules/attendance/auto-absent.service.ts:92-108 | A second run changes nothing |
| Sweeps.SweepsCommute | backend/src/modules/attendance/auto-checkout.service.ts:78-144 | The two sweeps of a day commute: same table, same candidates, same closed days |
| Sweeps.SweepsChangeNobodysDays | backend/src/modules/attendance/auto-absent.service.ts:13-20 | For every employee, period, calendar, leave and trips, payroll counts the same days before and after either sweep |
| Sweeps.EveryCompanyIsVisited | backend/src/modules/attendance/auto-absent.service.ts:63-66 | No due employee belongs to a company the loop leaves out |
| Sweeps.NightlySweeps.CloseDay | backend/src/modules/attendance/auto-checkout.service.ts:112-143 | One open day: not covered, skipped or closed |
| Sweeps.NightlySweeps.CloseCompany | backend/src/modules/attendance/auto-checkout.service.ts:90-144 | The days of one company; candidates are the closed and the skipped |
| Sweeps.NightlySweeps.SweepCompany | backend/src/modules/attendance/auto-checkout.service.ts:78-88 | A company that is off or whose period is closed is left alone |
| Sweeps.NightlySweeps.SweepAutoCheckout | backend/src/modules/attendance/auto-checkout.service.ts:44-149 | The whole job: the table closed exactly where closable, and the report counts exactly |
| Sweeps.NightlySweeps.RecordAbsences | backend/src/modules/attendance/auto-absent.service.ts:63-109 | One company of the auto-absent job, or the calendar error that ends the job |
| Sweeps.NightlySweeps.SweepAutoAbsent | backend/src/modules/attendance/auto-absent.service.ts:41-114 | The whole job: the table with the absences of the companies it reaches, and an exact report, or the error of the first calendar that fails |
| Sweeps.FilterCovered | backend/src/modules/attendance/auto-absent.service.ts:77-84 | The covered employees of a company |
| SweepPolicies.DirectExactly | backend/src/modules/attendance/auto-absent.service.ts:51-84 | The deciding policy row is the last of the own branch, else the last company-wide one; each sweep follows its own switch of that row |
| SweepPolicies.CheckoutClosesExactly | backend/src/modules/attendance/auto-checkout.service.ts:78-144 | A day is closed exactly when it is open, its period too, the deciding row has automatic checkout on, and a scheduled end after the check-in is known |
| SweepPolicies.AbsenceIsMarkedExactly | backend/src/modules/attendance/auto-absent.service.ts:63-110 | An absence is written exactly where the deciding row marks absences and the other conditions hold |
| SweepPolicies.AbsenteeExactly | backend/src/modules/attendance/auto-absent.service.ts:86-92 | Whom payroll counts as absent on the day |
| SweepPolicies.FailsExactly | backend/src/shared/payroll/attendance-calendar.ts:50-94 | In which companies the job fails |
| SweepPolicies.CountOnExactly | backend/src/modules/attendance/auto-checkout.service.ts:66-88 | The reports count the companies that are on, and of those the ones whose period is closed |
| Overtime.RunKeepsOneClaimExactly | backend/src/modules/attendance/attendance.service.ts:1027-1059 | A run has at most one live or pending request per employee and day throughout exactly when no step overtakes another's uncommitted request or approves a rejected one |
| Overtime.StepKeepsOneClaimExactly | backend/src/modules/attendance/attendance.service.ts:1034-1044 | The same for one step |
| Overtime.StepKeepsExclusive | backend/src/shared/database/advisory-lock.ts:30-43 | No two requests ever hold one lock |
| Overtime.OvertakingNeedsAGap | backend/src/shared/database/advisory-lock.ts:38-42 | Under the lock, overtaking needs two texts of one day, or a lock released before its commit |
| Overtime.WellTimedRunsNeverDouble | backend/src/modules/attendance/attendance.service.ts:1085-1092 | With equal days written alike, approvals of pending requests only, and each commit before the next check of its lock, at most one pending or approved request exists per employee and day |
| Overtime.ReleaseBeforeCommitDoubles | backend/src/shared/database/advisory-lock.ts:38-42 | Without the last condition it fails: a concrete interleaving |
| Overtime.TwoTextsOfADayDouble | backend/src/modules/attendance/attendance.service.ts:1030-1037 | Without the first it fails |
| Overtime.ApprovingARejectedRequestDoubles | backend/src/modules/attendance/attendance.repository.ts:217-224 | Without the second it fails |
| Overtime.FilingRuns | backend/src/modules/attendance/attendance.service.ts:1027-1092 | The statements of one filing with nobody in between store the request unless a duplicate exists or the workflow does not start |
| Overtime.OvertimeService.CreateOvertime | backend/src/modules/attendance/attendance.service.ts:1004-1099 | Creates the request exactly when the lock is free, no live one of the day exists and the workflow starts |
| OvertimeOutcomes.FilingStoresExactly | backend/src/modules/attendance/attendance.service.ts:1027-1092 | An uninterrupted filing under a free lock is stored exactly when no pending or approved request of the employee has the calendar day, however written, and the workflow starts |
| OvertimeOutcomes.PhasesExactly | backend/src/modules/attendance/attendance.service.ts:1027-1059 | Every phase of a request exactly by the statement that brings it about, with the lock and the day spelt out |
| OvertimeOutcomes.EndsExactly | backend/src/modules/attendance/attendance.repository.ts:217-224 | When a request is stored, approved, rejected, or gone |
| OvertimeOutcomes.NeverTwoOfADay | backend/src/modules/attendance/attendance.service.ts:1034-1044 | Well-timed runs never store two pending or approved requests of one employee and day |
| ByteScan.SearchPrintableStrings | frontend/src/services/face-recognition.ts:541-551 | The scan answers the texts of the spans and reads only inside the range |
| ByteScan.FoundExactly | frontend/src/services/face-recognition.ts:541-551 | The spans are exactly the maximal printable runs of at least four bytes in the range, in order, each once |
| ByteScan.SpansExactly | frontend/src/services/face-recognition.ts:544-549 | The same from any boundary on |
| ByteScan.FindsTextExactly | frontend/src/services/face-recognition.ts:541-551 | The scan finds exactly the whole runs of four or more bytes of text: space to tilde, tab and ends of line |
| ByteScan.ClipsAtSixty | frontend/src/services/face-recognition.ts:553-556 | At most the first sixty characters are kept |
| ByteScan.PickByPrefix | frontend/src/services/face-recognition.ts:553-556 | The first matching string, else the fallback one, cut to sixty characters |
| ByteScan.ParseMinimalExif | frontend/src/services/face-recognition.ts:516-539 | Reads only inside the buffer; answers nothing exactly for a short buffer, no image start or no Exif marker, and otherwise picks from the first marked segment |
| Liveness.CountsEveryBlink | frontend/src/services/face-recognition.ts:309-317 | At least n blinks are counted exactly when there are n shut frames with an open one between each two |
| Liveness.NoLongerAlternation | frontend/src/services/face-recognition.ts:311-317 | No choice of frames alternates longer than the count notices |
| Liveness.NoticedIsAnAlternation | frontend/src/services/face-recognition.ts:311-317 | What the count notices is such an alternation |
| Liveness.OneBlinkIsOneShutFrame | frontend/src/services/face-recognition.ts:318 | The challenge needs just one shut frame |
| Liveness.VerifyLivenessChallenge | frontend/src/services/face-recognition.ts:298-354 | Passes exactly with two detected frames and what the challenge asks of them |
| Liveness.VerifyBlink | frontend/src/services/face-recognition.ts:309-320 | The hysteresis loop |
| Liveness.VerifyNod | frontend/src/services/face-recognition.ts:343-352 | Spread or range of the pitches |
| Liveness.ImageDataToGrid | frontend/src/services/face-recognition.ts:392-399 | Copies the first three channels of every pixel |
| Liveness.RunningSumsGiveVariance | frontend/src/services/face-recognition.ts:410-412 | The running-sum form is the variance and never negative |
| Liveness.NoVarianceExactly | frontend/src/services/face-recognition.ts:410-412 | Variance is zero exactly when all values are equal |
| Liveness.ComputePixelVariance | frontend/src/services/face-recognition.ts:401-413 | The variance of the sampled luminances, or zero without samples |
| Liveness.SamplesExactly | frontend/src/services/face-recognition.ts:404-409 | One sample for every step, of the pixel it lands on |
| ClientStores.LoginCountsOnlyInItsSession | frontend/src/stores/auth.store.ts:73-90 | A login answer signs in exactly when no login, logout or setUser happened since it began; otherwise it changes nothing |
| ClientStores.ProfileCountsOnlyInItsSession | frontend/src/stores/auth.store.ts:98-118 | The same for a profile answer |
| ClientStores.VersionCountsSessionChanges | frontend/src/stores/auth.store.ts:67-75 | The version counts the session changes of a run |
| ClientStores.RunKeepsInv | frontend/src/stores/auth.store.ts:60-141 | In every run signed in means a user is present, the active company object has the active id, and the mirror holds that id |
| ClientStores.RefreshesKeepTheCompany | frontend/src/stores/auth.store.ts:21-53 | No run of user refreshes replaces an active company |
| ClientStores.CompanyMovesExactly | frontend/src/stores/auth.store.ts:31-40 | An active company changes exactly when another one is chosen, on signing out, when the request client gives the session up, or when a current profile request fails |
| ClientStores.LostSessionKeepsTheUser | frontend/src/services/api.ts:22-30 | After a refresh fails the company and the mirrors are gone while the auth store still holds its user; the next user set gets a company again |
| ClientStores.ClearClientSession | frontend/src/services/api.ts:22-30 | The request client's clearing of the mirrors and the company, as the modelled step |
| ClientStores.NothingSurvivesSignOut | frontend/src/stores/auth.store.ts:135-141 | Signing out clears user, company and mirrors, and outdates every login in flight |
| ClientStores.JoiningAnOldRequestRefreshesNothing | frontend/src/stores/auth.store.ts:98-100 | A refresh that joins a request of an earlier session never happens |
| ClientStores.LoadingGetsStuckExactly | frontend/src/stores/auth.store.ts:105-113 | The loading flag stays on with nothing under way exactly when the last answer is dropped as stale |
| ClientStores.LoadingGetsStuck | frontend/src/stores/auth.store.ts:98-116 | It happens: a concrete run from any quiet state |
| ClientStores.CompanyStore.SetActiveCompany | frontend/src/stores/company.store.ts:37-41 | Sets id, object and mirror together |
| ClientStores.CompanyStore.SeedActiveCompanyId | frontend/src/stores/company.store.ts:42-51 | Trims, looks the object up, and keeps the three consistent |
| ClientStores.CompanyStore.ClearActiveCompany | frontend/src/stores/company.store.ts:52-55 | Clears all |
| ClientStores.CompanyStore.ReplaceCompanies | frontend/src/stores/company.store.ts:56-60 | Replaces the list and finds the active object again |
| ClientStores.AuthStore.SyncContext | frontend/src/stores/auth.store.ts:21-53 | Seeds a company only when none is active; keeps or clears the mirrors |
| ClientStores.AuthStore.SetSignedIn | frontend/src/stores/auth.store.ts:67-71 | setUser, as the modelled step |
| ClientStores.AuthStore.BeginLogin | frontend/src/stores/auth.store.ts:73-75 | The part of login before its request |
| ClientStores.AuthStore.EndLogin | frontend/src/stores/auth.store.ts:76-90 | The part of login after its answer |
| ClientStores.AuthStore.ResetSession | frontend/src/stores/auth.store.ts:135-141 | reset, as the modelled step |
| ClientStores.AuthStore.BeginProfile | frontend/src/stores/auth.store.ts:98-103 | The part of loadProfile before its request |
| ClientStores.AuthStore.EndProfile | frontend/src/stores/auth.store.ts:104-116 | The part of loadProfile after its answer |
| StoreOutcomes.UserExactly | frontend/src/stores/auth.store.ts:67-141 | The user after any event: whom it signs in or out, if it belongs to the current session |
| StoreOutcomes.LoadingExactly | frontend/src/stores/auth.store.ts:73-116 | When the loading flag goes on and off |
| StoreOutcomes.RequestsExactly | frontend/src/stores/auth.store.ts:73-103 | Which requests are under way after any event |
| StoreOutcomes.MirrorsExactly | frontend/src/stores/auth.store.ts:21-53 | Which id each mirror holds after any event |
| StoreOutcomes.RunMirrorsTheUser | frontend/src/stores/auth.store.ts:21-53 | In every run without a lost session local storage holds the employee and the group of the user, and nothing when nobody is signed in |
| StoreOutcomes.LostMirrorsComeBack | frontend/src/services/api.ts:22-30 | After a lost session the mirrors are the user's again from the next sign-in or sign-out on |
| StoreOutcomes.ActiveIdExactly | frontend/src/stores/auth.store.ts:31-40 | The active company after any event: a choice, nothing, or a trimmed seed where none is active |
| StoreOutcomes.ActiveCompanyExactly | frontend/src/stores/company.store.ts:37-60 | The company object beside it: the chosen one, or the first of the list with that id |
| StoreOutcomes.NoCompanyIsLeft | frontend/src/stores/company.store.ts:52-55 | A sign-out, a lost session, or a user of no company leaves no company and no list |
| StoreOutcomes.ActiveIsMirrored | frontend/src/stores/company.store.ts:20-30 | In every run the company object has the active id and local storage holds that id |
| DataScope.MostRestrictive | backend/src/modules/administration/administration.repository.ts:114-125 | The merge loop returns a row of greatest rank, specific to the resource if a row of that rank is |
| DataScope.OrderDoesNotMatter | backend/src/modules/administration/administration.repository.ts:114-123 | Rank and specificity of the result do not depend on the order of rows |
| DataScope.MoreRowsNeverLowerRank | backend/src/modules/administration/administration.repository.ts:102-125 | Another row or role never lowers the rank |
| DataScope.EveryoneExactly | backend/src/modules/administration/administration.service.ts:200-231 | The filter is unrestricted exactly for a company-wide role without a row or a merged row ALL or COMPANY_ONLY, in an allowed company |
| DataScope.NoRestrictionIsIgnored | backend/src/modules/administration/administration.repository.ts:114-123 | With any restricting row configured the filter is never unrestricted |
| DataScope.DefaultIsClosed | backend/src/modules/administration/administration.service.ts:225-231 | Without row and company-wide role a requester reaches self, a team, or nobody |
| DataScope.ReachExactly | backend/src/modules/administration/administration.service.ts:233-325 | An accepted scope reaches exactly the employees its type, value and requester say |
| DataScope.ListedUnitsAreValid | backend/src/modules/administration/administration.service.ts:143-171 | A scope of listed units is accepted exactly when it lists one at least and nothing but UUIDs |
| DataScope.NonBlankExactly | backend/src/modules/administration/administration.service.ts:294 | What is kept of a list are its trimmed, non-blank parts |
| DataScope.NarrowsExactly | backend/src/modules/administration/administration.service.ts:233-325 | One filter reaches nobody outside another exactly when the wider is everyone, the narrower names nobody, or both name the same kind and the wider names all of the narrower's |
| DataScope.ScopeNarrowsExactly | backend/src/modules/administration/administration.service.ts:233-325 | The same for two accepted scopes, decided by their types, values and the requester |
| DataScope.ChangedRowsNarrowExactly | backend/src/modules/administration/administration.repository.ts:102-125 | Changing the configured rows gives a requester nobody new exactly when the scope in force after narrows the one before |
| DataScope.HigherRankReachesOthers | backend/src/modules/administration/administration.repository.ts:8-19 | For any branch and department, a department row added to a branch row raises the rank and reaches the department's employees of other branches |
| DataScope.AdministrationService.FindMyDataScope | backend/src/modules/administration/administration.service.ts:200-222 | Answers exactly for a company of the requester's scope, or without one the own, and with SUPER_ADMIN the selected one; the answer is the scope in force |
| DataScope.AdministrationService.ValidateScopeValue | backend/src/modules/administration/administration.service.ts:143-171 | Accepts exactly the valid values |
| DataScope.CompanyAllowedExactly | backend/src/modules/administration/administration.service.ts:66-88 | In which companies a requester may act: those of the scope, or without one the own; with SUPER_ADMIN only the selected one |
| TenantScope.OtherCompaniesAreRefused | backend/src/modules/administration/administration.service.ts:66-88 | Outside those companies every scope is refused, and inside them none for the company |
| TenantScope.TenantsAreSeparate | backend/src/modules/administration/administration.repository.ts:102-108 | The rows of other companies can be taken away or added without any effect |
| TenantScope.OnlyConcerningRowsCount | backend/src/modules/administration/administration.repository.ts:102-108 | Only rows of the company, of a role of the requester, and of the resource or of all have any influence |
| TenantScope.OtherRolesAndResourcesDoNotCount | backend/src/modules/administration/administration.repository.ts:102-108 | The rows of other roles and resources have none |
| TenantScope.MoreRestrictiveWins | backend/src/modules/administration/administration.repository.ts:8-19 | Of two rows the one of the more restrictive group is in force, in whatever order |
| TenantScope.MergedIsTheWinner | backend/src/modules/administration/administration.repository.ts:114-125 | Which of several equally restrictive rows is taken: the first for the resource itself, else the first |
| TenantScope.DefaultReachesExactly | backend/src/modules/administration/administration.service.ts:225-231 | Without a concerning row the roles alone decide: everyone, a manager's team, or oneself |
| TenantScope.TeamIsNamedExactly | backend/src/modules/administration/administration.service.ts:213-221 | The scope in force names a team exactly for a team scope of a requester with an employee |
| TenantScope.RefusalsExactly | backend/src/modules/administration/administration.service.ts:143-171 | Which scopes are refused, and why |
| TenantScope.SplitCutsAtCommas | backend/src/modules/administration/administration.service.ts:294 | Splitting cuts at every comma and loses nothing |
| TenantScope.WholeCompanyExactly | backend/src/modules/administration/administration.service.ts:200-231 | The whole company is reached exactly where allowed, when every concerning row is ALL or COMPANY_ONLY, and there is one or a role sees all by default |

## Left out

- Express routes, request schemas, rate limits, headers, queues, schedulers, pages and plain record keeping: they have no state or invariant of their own.
- Cryptography: JWTs, TOTP, password hashes, digests and face matching are answers or functions the environment gives; fresh random values are fresh. The audit lemmas name the collision they exclude.
- Clocks and calendars: instants are integers given to each step; time zones, DST and shift calendars are one function from a row to its scheduled end, and whether a day is a working day is given.
- Transport: axios internals, redirects, clearing of local storage keys and the URL patterns that classify a request are flags of a request; a 401 answer of the CSRF endpoint is not modelled, as it needs no session.
- ApiClient.RequestsTerminate: counts the steps of the request, not the time a server takes to answer.
- ApiOutcomes.RunSettlesExactly: a response is its success and its CSRF token; its body and the error handed to the caller are not modelled.
- Sessions.OneLiveTokenPerFamily: one request per step; interleaved queries keep it exactly when no refresh overtakes another (RefreshRaces.RunKeepsOneClaimExactly).
- Sessions.OneUnusedGrant: one request per step; the throttle query and the creation are two transactions.
- Lockout.GuessesAreBounded: needs strictly increasing clocks; for which settings it holds is Lockout.BoundedExactly; administrators changing the status are not events of that machine.
- AudienceJson.QueryFindsMembersExactly: `contains` is exact substring; collation and LIKE escaping of the database are not modelled.
- AudienceJson.ParseInvertsStringify: the reader accepts the texts the writer produces, not all of JSON; the comma fallback for texts that are no JSON is not modelled.
- AuditCsv.ReadInvertsExport: the export's filter and its order by time come from the query and are given.
- AuditChain.RunKeepsChains: an append is one step under the lock; deleting a company or user, which clears a hashed column, is not an event.
- AttendanceRules.PunchAppliedExactly: the text of a refusal that is stored with a rejected punch is not modelled.
- PunchIngest.DayTakesOneOpeningAndOneClosing: approved attendance corrections rewrite a day and are not events.
- PunchIngest.ResendingIsInert: two requests that ingest one punch at the same time are not modelled; the unique index then refuses the second row.
- The tables of allowed capture methods, the distance check of a location and permission lookups: case distinctions without state or an invariant of their own.
- Attendance.LateExactly: location, face and device checks of an attempt are one flag; the policy snapshot, warnings and exception columns are not modelled.
- Sweeps.NightlySweeps.SweepAutoAbsent: an employee whose working day cannot be told is given as such; payroll's range checks cannot fail for one day, and its sanity checks on overtime hours are not modelled.
- Sweeps.SweepsCommute: each sweep is one step; two sweeps whose queries interleave are not modelled.
- Overtime.OvertimeService.CreateOvertime: who may file for whom is decided before the lock and not modelled; waiting for the lock is taking it later or giving up.
- Liveness.ComputePixelVariance: exact reals; rounding is not modelled, and neither are the histogram, edge and hash vectors and the landmark distances.
- Liveness.VerifyLivenessChallenge: the score and the message of a judgement are not modelled.
- ClientStores.RunKeepsInv: storage events of other tabs are the Reset event; restoring a persisted store is starting from a consistent state; trimming knows the white space of Latin-1.
- DataScope.ReachExactly: the team of a manager is a given function; menu access and the upserts are not modelled.
