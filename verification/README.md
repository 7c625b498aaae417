# Docetra: a verified model of its stateful parts

Docetra keeps government records: a FastAPI backend with background workers, Redis
and a message broker, a Nuxt front end, and a Telegram bot.  This project models the
parts of it that keep state over time or transform data under subtle laws, and
proves what they promise, for every input, every run and every interleaving.

| module | models |
|---|---|
| `Redis`, `JsonCache` | keys with an expiry instant; the set-if-absent primitive behind the export lock |
| `RateLimit` | the fixed-window limiter and the login lockout |
| `Sessions`, `SessionIndex`, `Refreshes` | stored tokens with expiry, the index of tokens per user, and refreshes that overlap |
| `ExportJobs`, `ExportOutcomes`, `ExportSettled`, `ExportStarts` | export execution under a lock, with flushed and committed rows, crashes and several workers; where a status comes from; when a job is never run again; an account of every start |
| `Outbox` | the transactional outbox publisher with its retry ceiling |
| `DriveSync` | redelivery of a synchronisation job with a committed attempt counter |
| `MeetingReminders` | the reminder tick over a sliding window |
| `ListCache`, `Workspace`, `WorkspaceRows` | the stale-while-revalidate cache, the latest-request-wins loader over it, and the rows it shows |
| `ApiRequests` | coalescing, cancelling and counting requests in the browser |
| `PermissionCatalog`, `RolePermissions`, `PermissionPayload` | the permission matrix: the form's normaliser and the server's |
| `Json`, `Dicts`, `Secrets`, `Settings`, `SavedSettings` | merging settings, walks over secrets, saving what was read masked and saving what was typed |
| `Calendar`, `DateText` | calendar windows, the printed range and the parser of typed dates |
| `Conversation`, `LongPoll` | the bot's conversation over packed strings, and its update loop |
| `ObjectPath` | dotted paths into objects, and writing a document field through a shallow copy |

Code that updates objects is a class or a method on mutable rows, dicts and objects,
specified by a function of the old state; the laws are lemmas about those functions
and about runs built from them.  Time is a number that steps advance.  Redis, the
broker, the database, the Telegram server and the cipher are abstract: maps with
expiry, counts of received messages, rows with flushed and committed values, a list
of updates, and a pair of functions of which one undoes the other.  Every choice they
make (an outcome, a failure, a nonce, which rows a query returns) is a parameter.
Random ids are never reused.

The model follows the code where its comments or settings promise more:

- `_acquire_lock` says a job is never run twice.  The row is read before the lock and
  the lock is released before the commit, so two guarded runs can both complete a job
  (`ExportJobs.CompletedTwice`).  A job is never run again exactly from the moment on at
  which it is settled, whatever is about to be committed for it is settled, nobody is
  inside its section and nobody who read it unsettled has yet to visit it
  (`ExportSettled.NeverAgainExactly`).
- The retry ceiling of exports bounds the counter, not the starts of the generator.
  Every start is counted, or was made by a session that died before committing, or is
  overwritten by a session that had read the row before it was committed
  (`ExportStarts.StartsAccounted`), and the starts stay within the ceiling exactly as
  long as the latter two fit into what the counter leaves of it
  (`ExportStarts.CeilingExactly`).  Both ways past it exist (`ExportStarts.DyingStarts`,
  `ExportStarts.OverlappingStarts`), and there is no third (`ExportStarts.OnlyTwoWays`).
- `loadWorkspace` says a list marked stale always asks the API.  The load that consumes
  the mark does, but the mark is gone whether or not that load is answered: it can be
  superseded by a load that is content with the cache (`Workspace.MarkCanBeLost`), and it
  can fail (`Workspace.MarkLostByFailure`); either way a later load may bring the old
  rows back for good.  The mark is honoured exactly when the consuming load is answered
  with rows before another one starts (`Workspace.ConsumedExactly`); over any number of
  loads `Workspace.RenewedInRun` says exactly when newer rows are shown, and
  `Workspace.SentExactly` when a load asks at all.
- A request can be cancelled only while it holds the controller of its key, and a call
  without `cancelPrevious` takes the controller over: `ApiRequests.OrphanedExactly`,
  `ApiRequests.TakenOver`.  A coalesced read may join an aborted request:
  `ApiRequests.JoinedExactly`.
- A refresh token is looked up before it is deleted, so overlapping refreshes with one
  token succeed, exactly those that look it up before the first deletion
  (`Refreshes.GrantedExactly`).
- `normalizePermissionRows` says unknown actions are discarded.  A code that names a
  property every object inherits is looked up successfully and grants `view`
  (`RolePermissions.ViewOutOfNothing`).
- `merge_setting` says masked secrets are preserved.  Those in a section's `password`
  and `botToken` are; `Settings.MaskedRoundTrip` says exactly which configs survive.

## Model

| member | source | states |
|---|---|---|
| RateLimit.RateLimits.EnforceRateLimit | backend/app/core/rate_limit.py:11-17 | the verdict and the new counter are those of the window model, and no other key is touched |
| RateLimit.WindowBound | backend/app/core/rate_limit.py:11-17 | whatever the calls and crashes, any interval of one window length admits at most 2 * limit - 1 calls |
| RateLimit.WindowBoundAttained | backend/app/core/rate_limit.py:11-17 | that bound is reached for every limit, so it is the exact one |
| RateLimit.RetryAfter | backend/app/core/rate_limit.py:15-17 | a refused caller is admitted exactly from the advertised time on; a counter left without expiry by a crash refuses for ever |
| RateLimit.RateLimits.RecordLoginFailure | backend/app/core/rate_limit.py:20-32 | one failure is counted for the lock minutes from now, and the attempt that reaches the limit locks for as long; no other e-mail is touched |
| RateLimit.RateLimits.ClearLoginFailures | backend/app/core/rate_limit.py:35-36 | afterwards nothing is remembered of the e-mail, and everything of all others |
| RateLimit.RateLimits.EnsureNotLocked | backend/app/core/rate_limit.py:39-43 | refuses exactly while locked, and advertises the remaining lock time |
| RateLimit.LockoutMeaning | backend/app/core/rate_limit.py:20-43 | over any log of failures and clears: locked at t iff an uncleared chain of at least M failures with gaps below L ended less than L before t |
| RateLimit.LockoutInSettings | backend/app/core/rate_limit.py:20-43 | the same in the terms of the settings: L minutes and M attempts, with settings below one read as one second and one attempt |
| JsonCache.Cache.Add | backend/app/core/cache.py:18-20 | succeeds iff no live value is there, and changes the store only then |
| JsonCache.Cache.Get | backend/app/core/cache.py:11-13 | finds a value iff its key is live, and then that value |
| JsonCache.Cache.Delete | backend/app/core/cache.py:22-23 | the key is gone whoever wrote it |
| Sessions.SessionStore.PutToken | backend/app/core/security.py:72-75 | the three Redis commands store the token and index it, or a refused expiry changes nothing |
| Sessions.SessionStore.DropToken | backend/app/core/security.py:78-87 | the token is gone from the store and from the index of its owner, who is looked up when not given |
| Sessions.SessionStore.RevokeUserTokens | backend/app/core/security.py:90-94 | all indexed tokens and the index are gone |
| Sessions.SessionStore.IssueSession | backend/app/core/security.py:97-109 | both tokens are stored for the user, or nothing changes |
| Sessions.SessionStore.DeleteSession | backend/app/core/security.py:112-123 | both presented tokens are revoked, forged ones are skipped |
| Sessions.SessionStore.UserFromToken | backend/app/core/security.py:126-152 | accepts exactly genuine, unexpired, stored tokens of the asked kind whose user exists, and tells expiry and a missing account from all other refusals |
| Sessions.SessionStore.RefreshSession | backend/app/core/security.py:163-176 | the presented token is spent before a new pair is issued, also when issuing fails |
| Sessions.SoundRun | backend/app/core/security.py:72-123 | if no access token outlives the refresh time, then after every operation and at every time each live token is in the live index of its user, which expires no earlier |
| Sessions.LogoutEverywhereHolds | backend/app/core/security.py:90-94 | after revoking a user no token of the user is accepted until the user logs in again, refreshes included |
| SessionIndex.OwnRun | backend/app/core/security.py:72-94 | in every run a live index names only stored tokens of its user, next to naming all live ones |
| SessionIndex.LogoutExactly | backend/app/core/security.py:78-123 | after any run, logging a user out everywhere ends exactly that user's tokens and logging out with a token ends exactly that one; all others stay accepted or refused as they were |
| Sessions.DeadForever | backend/app/core/security.py:126-152 | a signed token that is no longer stored is never accepted again in any run |
| Sessions.KindsStayApart | backend/app/core/security.py:133-134 | whatever happens after a login or refresh, its refresh token is never accepted as an access token, nor the access token for a refresh |
| Sessions.RotatedOnce | backend/app/core/security.py:163-176 | a refresh token that was used by a refresh in one step is never accepted again |
| Sessions.RotationRenews | backend/app/core/security.py:163-176 | the pair handed out by a rotation is accepted for the same user |
| Refreshes.GrantedExactly | backend/app/core/security.py:126-174 | whatever runs in between, a refresh goes through iff it presents a refresh token of a known account and its lookup comes before any deletion of the token and before its expiry, even if the token is deleted before the refresh itself deletes it |
| Refreshes.LastsExactly | backend/app/core/security.py:72-109 | after a login or refresh, whatever runs, each of the two tokens is accepted until its own time to live is over or a step deletes it, and while stored carries user and anti-forgery value |
| Refreshes.SpendRenews | backend/app/core/security.py:173-176 | a refresh that goes through hands out a pair that is accepted for the same user, and leaves the old token dead |
| Sessions.IndexNeedsShortAccess | backend/app/core/security.py:72-75 | logging out everywhere revokes an access token at every later moment iff its time to live is no longer than the refresh time |
| ExportJobs.Execute | backend/app/jobs/consumers/exports.py:69-102 | settled or locked jobs are left alone; any other gets exactly one attempt with the outcome of ExecutedExactly, its status is cached and the lock is gone |
| ExportJobs.ExecutedExactly | backend/app/jobs/consumers/exports.py:77-99 | at the ceiling the job fails without another attempt; otherwise the generator gets the processing payload with one more attempt, its result is kept as it is, and a raise always fails the job with the first 500 characters and the time |
| ExportJobs.MutualExclusion | backend/app/jobs/consumers/exports.py:50-102 | in every run in which sections have their key and are shorter than its 900 s, no two sessions are inside the section of one job, however workers interleave and die |
| ExportJobs.SecondVisitor | backend/app/jobs/consumers/exports.py:50-57 | a second session enters an open section exactly when Redis cannot be reached or the section has outlived its key |
| ExportJobs.Recovery | backend/app/jobs/consumers/exports.py:13-13 | 900 s after whatever died, a visit to an unsettled job enters the section |
| ExportOutcomes.SettledOnlyByGenerator | backend/app/jobs/consumers/exports.py:69-119 | in every run a job becomes completed, or due to be purged, only by a generator that returned and left it so; no raise, ceiling or death does it |
| ExportJobs.AttemptsCapped | backend/app/jobs/consumers/exports.py:77-84 | if the generator keeps the counter, no payload read, flushed or committed counts more attempts than allowed |
| ExportJobs.DyingAttemptsAreForgotten | backend/app/jobs/consumers/exports.py:82-88 | a job can be started and lost any number of times without its committed payload moving |
| ExportJobs.UndisturbedAttempt | backend/app/jobs/consumers/exports.py:69-119 | the interleaved steps of an undisturbed attempt commit exactly what one execution computes from the payload it had read |
| ExportJobs.CompletedTwice | backend/app/jobs/consumers/exports.py:105-136 | a guarded run in which two sessions complete the same job one after the other |
| ExportSettled.NeverAgainExactly | backend/app/jobs/consumers/exports.py:50-136 | at any point of any run: no further run enters the section of the job iff it is settled, what is flushed for it is settled, nobody is inside and nobody who read it unsettled has yet to visit it |
| ExportSettled.DoneForGood | backend/app/jobs/consumers/exports.py:69-75 | from then on that stays so in every run, and the row never changes once nothing is flushed |
| ExportSettled.RunsAgain | backend/app/jobs/consumers/exports.py:50-136 | otherwise there is a run that enters the section |
| ExportStarts.StartsAccounted | backend/app/jobs/consumers/exports.py:77-136 | in every run the starts of a job are what its counter has gained, plus the starts of sessions that died before committing, plus the counts overwritten by sessions that had read the row earlier |
| ExportStarts.CeilingExactly | backend/app/jobs/consumers/exports.py:77-136 | in every run the starts stay within the ceiling iff the lost and the overwritten ones fit into what the counter leaves of it |
| ExportStarts.OneReaderCeiling | backend/app/jobs/consumers/exports.py:77-136 | where the row is opened only after the end of every other session that read it, starts are counted attempts plus those of dead sessions, and stay within the ceiling iff deaths use no more than the slack |
| ExportStarts.OnlyTwoWays | backend/app/jobs/consumers/exports.py:77-136 | a run with more starts than the ceiling has overlapping readers or a session that died after a start |
| ExportStarts.DyingStarts | backend/app/jobs/consumers/exports.py:82-88 | one way: any number of starts with one reader at a time, every one of them lost |
| ExportStarts.OverlappingStarts | backend/app/jobs/consumers/exports.py:105-136 | the other way: two overlapping readers make two starts for one count and nobody dies, which passes the ceiling iff the last attempt was at stake |
| Outbox.PublishBatch | backend/app/jobs/consumers/outbox.py:25-36 | every row of the batch is attempted once and in order whatever happens to the others: attempts grow by one, exactly the published ones and those at the ceiling are processed now, and exactly those given up are logged |
| Outbox.ReceivedExactly | backend/app/jobs/consumers/outbox.py:25-29 | the received positions are exactly those whose publication did not fail before the broker, in order and each once |
| Outbox.GivenUpExactly | backend/app/jobs/consumers/outbox.py:31-36 | the logged positions are exactly those that failed their last attempt, in order and each once |
| Outbox.NothingDropped | backend/app/jobs/consumers/outbox.py:19-37 | in every run an open row has fewer than M attempts, a settled one at most M, and each settled row reached the broker or is logged as failed |
| Outbox.FaredExactly | backend/app/jobs/consumers/outbox.py:24-37 | the account of a row over any run: received once per recorded and once per unrecorded publication, at most one of them recorded; settled iff one was, or logged; logged iff the attempts reached the ceiling without |
| Outbox.ReceivedOnce | backend/app/jobs/consumers/outbox.py:24-37 | where every pass commits and no answer is lost a message is received at most once, and iff its row is settled and not logged; in general at most once more than it was published unrecorded |
| Outbox.Chosen | backend/app/jobs/consumers/outbox.py:24-24 | whatever batch the query returns, it holds every row that fewer than 100 open rows precede |
| Outbox.Drains | backend/app/jobs/consumers/outbox.py:19-37 | a row with k older open rows is settled after M * (k / 100 + 1) committed passes, whatever fails or dies meanwhile |
| DriveSync.HandleDriveSync | backend/app/jobs/consumers/__init__.py:136-162 | what is committed and whether the message goes back, for every job and outcome |
| DriveSync.AttemptsCountBegins | backend/app/jobs/consumers/__init__.py:143-162 | deliveries that go back leave one committed attempt each until one completes the job, wherever their workers died; they complete it iff a worker died between the final commit and the acknowledgement |
| DriveSync.PutBackExactly | backend/app/jobs/consumers/__init__.py:141-162 | a failing job goes back iff the committed attempts, those of dead workers included, stay below the limit, otherwise it is stored as failed; one that a dead worker had completed is acknowledged untouched |
| DriveSync.RequeuesBounded | backend/app/jobs/consumers/__init__.py:136-162 | at most job_max_retries - 1 deliveries of a job are put back by the handler, wherever and however often workers die |
| MeetingReminders.DueMeetingReminders | backend/app/jobs/scheduler/meeting_reminders.py:10-36 | exactly the due rows are published and queued |
| MeetingReminders.SelectedExactly | backend/app/jobs/scheduler/meeting_reminders.py:14-20 | the published positions are exactly the due ones, each once and in table order |
| MeetingReminders.ScheduleHistory | backend/app/jobs/scheduler/meeting_reminders.py:21-23 | at any time a schedule is queued iff some committed tick has moved it |
| MeetingReminders.MovedOnceInWindow | backend/app/jobs/scheduler/meeting_reminders.py:11-23 | no schedule is moved twice or outside the 15 minutes before it is due |
| MeetingReminders.MovedAtFirstChance | backend/app/jobs/scheduler/meeting_reminders.py:11-23 | a schedule is moved at all iff the first committed tick at or after its window opens is not too late |
| MeetingReminders.Coverage | backend/app/jobs/scheduler/meeting_reminders.py:10-36 | with committed ticks at most 15 minutes apart, every schedule stored in time is published and queued by exactly one tick inside its window |
| MeetingReminders.LongerPauseMisses | backend/app/jobs/scheduler/meeting_reminders.py:11-19 | after any longer pause there is a schedule, stored in time, that is never sent |
| ListCache.Cache.Read | frontend/app/utils/list-cache.ts:18-22 | a hit iff the key was written, with its data, fresh iff written less than 30 seconds ago |
| ListCache.Cache.Write | frontend/app/utils/list-cache.ts:24-26 | the entry is stored with the time of writing and nothing else changes |
| ListCache.Cache.Clear | frontend/app/utils/list-cache.ts:29-31 | nothing stays cached |
| ListCache.WrittenIsFresh | frontend/app/utils/list-cache.ts:18-26 | what was written is found with its data and is fresh iff it was written less than 30 seconds ago |
| ListCache.StaleKeys.Mark | frontend/app/utils/workspace-list-stale.ts:4-8 | exactly the non-empty keys are added |
| ListCache.StaleKeys.Consume | frontend/app/utils/workspace-list-stale.ts:11-21 | a hit iff one of the keys was marked, and none of them stays marked |
| Workspace.EntityWorkspace.BeginLoad | frontend/app/composables/workspace/useEntityWorkspace.ts:178-199 | what a load paints, clears and asks before its first await, and which mark it consumes |
| Workspace.EntityWorkspace.SettleLoad | frontend/app/composables/workspace/useEntityWorkspace.ts:201-244 | what a reply may change, on screen and in the cache, with the token guard of each branch: rows of an unnumbered list are shown and cached as they came, an error shows its message |
| Workspace.SupersededChangesNothing | frontend/app/composables/workspace/useEntityWorkspace.ts:218-242 | from the moment a load is superseded, erasing its reply from the rest of the run leaves rows, total, error and spinner of every view, the cache and the marks as they are |
| Workspace.SoundRun | frontend/app/composables/workspace/useEntityWorkspace.ts:178-244 | views and cache stay coherent in every interleaving of loads, navigation, sign-in and sign-out |
| Workspace.LatestWins | frontend/app/composables/workspace/useEntityWorkspace.ts:178-244 | every cached page answers the user and query of its key; pending means the newest load is outstanding; settled rows answer the newest load |
| WorkspaceRows.ShowsWhatWasSent | frontend/app/composables/workspace/useEntityWorkspace.ts:201-244 | in every run each cached page holds exactly the rows and total that the server sent for its key, and settled rows without error are exactly those it sent to a load of the newest key, a board those of all its columns |
| WorkspaceRows.FlattenedExactly | frontend/app/composables/workspace/useEntityWorkspace.ts:219-221 | the rows of a board are those of its columns one after the other, and its total is theirs together |
| Workspace.PaintedForSelf | frontend/app/composables/workspace/useEntityWorkspace.ts:168-192 | a load asks for, and paints from the cache, only rows of the identity, list and query as they are at its start |
| Workspace.SignedOutForgets | frontend/app/stores/auth.ts:38-45 | after a sign-out, whatever follows, every cached page was written since, and until then every load asks the server |
| Workspace.SentExactly | frontend/app/composables/workspace/useEntityWorkspace.ts:178-199 | a load is sent iff the view is a kanban board, it is forced, the list is marked, or the cache holds no entry for its user, list and query younger than 30 seconds |
| Workspace.RenewedExactly | frontend/app/composables/workspace/useEntityWorkspace.ts:178-244 | while a load stays the newest, rows from an answer asked for at a given moment or later are shown iff the load was answered with rows or what it painted or left came from such an answer |
| Workspace.RenewedInRun | frontend/app/composables/workspace/useEntityWorkspace.ts:178-244 | the same at the end of every run, with the newest load of the list in it |
| Workspace.ConsumedExactly | frontend/app/composables/workspace/useEntityWorkspace.ts:182-244 | a consumed mark is gone, and newer rows are shown iff the load that consumed it is answered with rows while it is the newest |
| Workspace.MarkHonoured | frontend/app/composables/workspace/useEntityWorkspace.ts:182-244 | after a consumed mark, as long as no answer asked for later is on screen or in the cache entry, such rows are shown iff the newest load was sent and answered with rows |
| Workspace.MarkCanBeLost | frontend/app/composables/workspace/useEntityWorkspace.ts:182-192 | a consumed stale mark whose load is superseded leaves the old rows on screen and no mark |
| Workspace.MarkLostByFailure | frontend/app/composables/workspace/useEntityWorkspace.ts:182-242 | a consumed stale mark whose load fails: the next load shows the old rows with no error, no mark and no request on its way |
| Workspace.NumberedForKey | frontend/app/composables/workspace/useEntityWorkspace.ts:227-234 | the cached page is numbered for its key iff it is empty or the route still has the offset of the load's start |
| Workspace.NumberedRun | frontend/app/composables/workspace/useEntityWorkspace.ts:227-234 | if replies arrive before the offset changes, every cached page is numbered for its key |
| ApiRequests.Requests.FetchRequest | frontend/app/composables/useApi.ts:115-142 | a coalescing read joins the one in flight, any other call starts a request, cancelling its predecessor when asked |
| ApiRequests.Requests.CancelRequest | frontend/app/composables/useApi.ts:107-113 | the request that holds the key's controller is aborted and the controller released |
| ApiRequests.Requests.SettleRequest | frontend/app/composables/useApi.ts:251-256 | the request leaves the count of its instance, and its controller only if it still holds it |
| ApiRequests.Requests.ForgetRequest | frontend/app/composables/useApi.ts:259-264 | the request leaves the in-flight table only if the entry is still its own |
| ApiRequests.InvariantRun | frontend/app/composables/useApi.ts:107-264 | tables and counts agree with the requests on their way after every run |
| ApiRequests.OneReadPerKey | frontend/app/composables/useApi.ts:122-127 | at most one coalesced read per key is on its way, and every later one joins it |
| ApiRequests.FetchExactly | frontend/app/composables/useApi.ts:115-142 | a plain read of a key in flight changes nothing; every other call starts a request of its own, and aborts the holder of the controller iff it asks to, and nobody else |
| ApiRequests.OnlyReadsAreShared | frontend/app/composables/useApi.ts:117-127 | in every run, who joins is a plain read, and so was the call that started what it joins |
| ApiRequests.PendingIsExact | frontend/app/composables/useApi.ts:141-141 | the counter equals the instance's requests on their way, so the clamp at zero never acts |
| ApiRequests.OneLiveRequest | frontend/app/composables/useApi.ts:129-134 | for keys fetched only with cancelPrevious at most one request is on its way un-aborted |
| ApiRequests.HeldStep | frontend/app/composables/useApi.ts:107-142 | from at most one live request, held by its controller, one step leaves at most one iff it is no fetch of the key, or joins, or cancels the previous one, or finds no live request |
| ApiRequests.OneAliveFromStart | frontend/app/composables/useApi.ts:107-142 | in every run from the start: at most one request of the key is live at every moment iff every fetch of the key joins, cancels the previous one or finds no live request |
| ApiRequests.AbortedExactly | frontend/app/composables/useApi.ts:107-113 | a request on its way is aborted iff its key was cancelled while it held the controller |
| ApiRequests.OrphanedExactly | frontend/app/composables/useApi.ts:107-134 | some run still aborts a live request iff it holds the controller of its key |
| ApiRequests.TakenOver | frontend/app/composables/useApi.ts:122-134 | a live request loses its controller to a fetch iff that neither joins nor cancels |
| ApiRequests.OrphanedRequest | frontend/app/composables/useApi.ts:133-134 | one such run: a second request without cancelPrevious takes over the controller, and cancelling aborts it but not the first |
| ApiRequests.JoinedIsAlive | frontend/app/composables/useApi.ts:124-127 | reads of a key nobody cancels never join an aborted request |
| ApiRequests.JoinedExactly | frontend/app/composables/useApi.ts:107-127 | the request a read joins is aborted iff the key was cancelled while that request held the controller |
| ApiRequests.JoinsAborted | frontend/app/composables/useApi.ts:107-127 | the shortest such run: a cancelled read is joined until its clean-up |
| PermissionCatalog.PermissionKeyInjective | frontend/app/utils/role/permissions.ts:141-141 | a key determines prefix and action because actions hold no dot |
| RolePermissions.NormalizePermissionActions | frontend/app/utils/role/permissions.ts:72-82 | the set filled code by code yields the normal form of the codes |
| RolePermissions.NormalizedExactly | frontend/app/utils/role/permissions.ts:72-82 | which actions come out: those meant by some code, and view whenever more was asked; in canonical order, each once |
| RolePermissions.NormalIsFixed | frontend/app/utils/role/permissions.ts:72-82 | normalising what is normal changes nothing |
| RolePermissions.ViewOutOfNothing | frontend/app/utils/role/permissions.ts:62-80 | without a meaningful code the outcome is view iff a code names an inherited property |
| RolePermissions.LegacyCodes | frontend/app/utils/role/permissions.ts:62-82 | each code of older releases grants today's action, and view |
| RolePermissions.PermissionRowsToFlatKeys | frontend/app/utils/role/permissions.ts:135-144 | the keys are those of the normalised rows |
| RolePermissions.NormalizedRowsAreClean | frontend/app/utils/role/permissions.ts:85-103 | sent rows follow the catalogue, at most one per type, none empty, with allowed actions including view, a level of one digit and no creator restriction on purge |
| RolePermissions.NormalizedRowsFixed | frontend/app/utils/role/permissions.ts:85-103 | the row normaliser is idempotent and does not change the keys |
| RolePermissions.MatrixExactly | frontend/app/utils/role/permissions.ts:85-103 | the form is shown one row per definition in catalogue order, made of the last row stored for its type: exactly the allowed ones of its normalised actions, its id or a default one, its level cut to one digit |
| RolePermissions.SentExactly | frontend/app/utils/role/permissions.ts:102-102 | sent are exactly the shown rows that grant something, in order |
| RolePermissions.SetActionExactly | frontend/app/utils/role/permissions.ts:106-132 | on any row, normal or not: one box becomes as asked, view comes along or clears the row, all other boxes stay as the normal form of the row has them, and so does the rest of the row but for a creator restriction that ends |
| RolePermissions.NoSuchBox | frontend/app/utils/role/permissions.ts:111-132 | an unknown action changes nothing; the name of an inherited property normalises the row, or ticks view |
| PermissionPayload.NormalizePermissionPayload | backend/app/core/permissions.py:66-106 | the loops give the verdict and rows of the row-by-row check, failing at the first bad row |
| PermissionPayload.AcceptedExactly | backend/app/core/permissions.py:71-93 | rows are accepted iff each has a known or new type, only actions of that type and a level from 0 to 9 |
| PermissionPayload.VerdictExactly | backend/app/core/permissions.py:66-105 | an unacceptable payload is refused for its first unacceptable row, with that row's reason; an acceptable one iff a list is supplied that does not name exactly the keys its rows grant |
| PermissionPayload.PermissionsExactly | backend/app/core/permissions.py:101-103 | the permissions are exactly the keys granted by some row: its actions, and view with any, under the prefix of its type |
| PermissionPayload.TypeRules | backend/app/core/permissions.py:71-82 | a listed type is stored under its prefix with its actions, a new one under records. with those of a workflow, the empty one not at all |
| PermissionPayload.ReservedTypes | backend/app/core/permissions.py:75-80 | a fixed type without a prefix is refused and never taken for a new one |
| PermissionPayload.CheckedRowMeaning | backend/app/core/permissions.py:83-100 | an accepted row keeps its actions, each once, plus view; the creator restriction survives iff something is granted and purge is not |
| PermissionPayload.CheckedRowOrder | backend/app/core/permissions.py:83-90 | a view that was added stands first, the other actions in the order of their first occurrence |
| PermissionPayload.AcceptedIsStable | backend/app/core/permissions.py:66-137 | an accepted payload is accepted again unchanged iff view is an action of every type given any, and expanding its rows gives its permissions |
| PermissionPayload.ExpandPermissionRows | backend/app/core/permissions.py:125-137 | the list holds the key of every action of every row that has a prefix, in order and with repetitions |
| PermissionPayload.FormPayloadAccepted | frontend/app/composables/workspace/useDocumentPage.ts:318-326 | whatever the form holds, a server that knows the form's types, and maybe more, accepts what it sends, keeps its rows, computes the same permissions and the same count |
| Dicts.MergeDicts | backend/app/shared/dicts.py:8-16 | on dicts as objects: the result stands for the merge, every merged section is a new dict, and both arguments still stand for what they did |
| Json.MergeIdempotent | backend/app/shared/dicts.py:8-16 | merging a value onto itself changes nothing |
| Json.CoversExactly | backend/app/shared/dicts.py:8-16 | merging onto a base gives just the overlay iff the overlay covers every key path of the base |
| Json.MergeAssociative | backend/app/shared/dicts.py:8-16 | merging three layers is associative iff no non-dict in the middle shields keys of the first that the last lacks |
| Secrets.WalksCompose | backend/app/core/secrets.py:35-40 | two walks over a tree are one walk with both changes |
| Secrets.WalkFixes | backend/app/core/secrets.py:35-40 | a walk leaves a value alone iff it changes none of its secrets at any depth |
| Secrets.ProtectSeals | backend/app/core/secrets.py:43-45 | every string under a sensitive key is stored empty or with the seal's prefix; one typed with that prefix is stored as typed, and values that are no strings are not sealed |
| Secrets.ProtectFixes | backend/app/core/secrets.py:20-45 | settings are stored as typed iff every such string is empty or already begins with the prefix |
| Secrets.MaskHides | backend/app/core/secrets.py:53-55 | every string under a sensitive key that leaves is empty or the mask; values that are no strings, such as a numeric chat id, leave as they are |
| Secrets.RevealUndoesProtect | backend/app/core/secrets.py:20-50 | revealing a protected tree gives what revealing the tree gives, for any nonces |
| Secrets.ProtectIdempotent | backend/app/core/secrets.py:20-45 | protecting twice is protecting once |
| Secrets.RevealFixes | backend/app/core/secrets.py:28-50 | revealing leaves a tree alone iff none of its secrets reads as sealed |
| Settings.MergeSettingDicts | backend/app/modules/admin_config/services/settings.py:21-34 | on dicts as objects: the patched sections are new dicts, the arguments are untouched, and a secret that cannot be looked up in a set fails the merge |
| Settings.RestoreField | backend/app/modules/admin_config/services/settings.py:30-33 | an empty or masked field takes its prior value, or null, in place; an unhashable one is reported; any other stays as typed |
| Settings.SectionRoundTrip | backend/app/modules/admin_config/services/settings.py:25-33 | a masked section comes back iff its secrets are restored fields that do not read as sealed |
| Settings.UpdateAppConfig | backend/app/modules/admin_config/services/settings.py:49-59 | the row takes the protected merge and the new time, or a failing merge leaves it alone |
| SavedSettings.SavedAsTyped | backend/app/modules/admin_config/services/settings.py:21-59 | after saving over any stored config: a typed string that is not blank and does not begin with the seal's prefix is what is stored, passwords and tokens included; a blank password or token keeps the stored one, or becomes null; what was not typed stays |
| SavedSettings.UnnamedStays | backend/app/modules/admin_config/services/settings.py:21-59 | what the body does not name keeps its revealed value, whole sections included |
| SavedSettings.MergedExactly | backend/app/modules/admin_config/services/settings.py:21-34 | the merge key by key and field by field: what was typed wins, dicts are merged, blank passwords and tokens are restored, and nothing else appears or is lost |
| SavedSettings.RefusedExactly | backend/app/modules/admin_config/services/settings.py:30-33 | saving fails iff a password or token of a section would be a list or a dict |
| SavedSettings.SavedIsHidden | backend/app/modules/admin_config/services/settings.py:36-59 | every string secret is stored sealed or empty and shown masked or empty, and the answer carries the time of the update |
| Settings.MaskedRoundTrip | backend/app/modules/admin_config/services/settings.py:21-59 | reading the config masked and saving it as read leaves the revealed config unchanged iff its secrets stand only under password or botToken directly in a section and none reads as sealed; a config without any key becomes the defaults |
| Settings.DestinationsAreNotRestored | backend/app/core/secrets.py:12-12 | a config with a chat id in the destinations list does not survive |
| Calendar.MonthsFill | backend/app/jobs/telegram_bot.py:101-102 | the table of month starts agrees with the month lengths and the year length |
| Calendar.YearLength | backend/app/jobs/telegram_bot.py:101-102 | the closed form of days before a year agrees with the leap rule, year by year |
| Calendar.OrdinalMonotone | backend/app/jobs/telegram_bot.py:96-103 | ordinals order dates as the calendar does and determine them |
| Calendar.AddDaysOrdinal | backend/app/jobs/telegram_bot.py:96-102 | moving day by day across months and years moves the ordinal by as much |
| Calendar.MonthSpill | backend/app/jobs/telegram_bot.py:102-102 | the 28th plus four days, set to day 1, is the first of the next month, in every month |
| Calendar.TodayMeaning | backend/app/jobs/telegram_bot.py:95-96 | today runs from midnight to the next midnight |
| Calendar.WeekMeaning | backend/app/jobs/telegram_bot.py:97-99 | the week runs from the Monday on or before now to the next; it fails iff it would end after year 9999 |
| Calendar.MondayOrdinal | backend/app/jobs/telegram_bot.py:97-99 | that start is a Monday and the end lies seven days later |
| Calendar.MonthMeaning | backend/app/jobs/telegram_bot.py:100-103 | the month runs from its first day to the first of the next; it fails iff that is in year 10000 |
| Calendar.WindowMeaning | backend/app/jobs/telegram_bot.py:91-104 | every window contains the instant it was asked for; there is none exactly in the last days of year 9999 |
| Calendar.WindowShared | backend/app/jobs/telegram_bot.py:91-104 | every instant of a window has that very window |
| Calendar.WindowsTile | backend/app/jobs/telegram_bot.py:91-104 | two windows of one kind are equal or do not overlap |
| DateText.MatchPrefixPrefers | backend/app/jobs/telegram_bot.py:85-85 | the token search matches iff the pattern can read the text, and finds the reading a greedy engine prefers |
| DateText.TwoTokens | backend/app/jobs/telegram_bot.py:125-129 | text with two dates in it yields those two first, whatever surrounds them |
| DateText.ParseDateRange | backend/app/jobs/telegram_bot.py:122-135 | the loop over the first two matches gives the parsed range, none, or the overflow |
| DateText.OrderDoesNotMatter | backend/app/jobs/telegram_bot.py:122-135 | two typed dates give the same answer in either order, valid or not |
| DateText.ParsedNotEmpty | backend/app/jobs/telegram_bot.py:134-135 | a parsed range starts at a midnight and ends at a later one |
| DateText.WrittenIsRead | backend/app/jobs/telegram_bot.py:112-119 | a date is read as written, year first or day first, with or without leading zeros |
| DateText.TypedRange | backend/app/jobs/telegram_bot.py:122-135 | two typed dates, each in either form and in either order, give the days from the earlier to the later one, or the overflow after the last day of all |
| DateText.RoundTrip | backend/app/jobs/telegram_bot.py:107-135 | parsing a printed range gives its midnights back iff the range is not empty, for every year and either padding of it |
| DateText.IsoRoundTrip | backend/app/jobs/telegram_bot.py:510-510 | the ISO text of a midnight reads back as that midnight and holds no bar |
| Conversation.SectionLabels | backend/app/jobs/telegram_bot.py:57-81 | every section label leads to its own action |
| Conversation.DocumentLabels | backend/app/jobs/telegram_bot.py:69-80 | every document label leads to its own type |
| Conversation.PeriodLabels | backend/app/jobs/telegram_bot.py:64-74 | every period label leads to its own period |
| Conversation.StripExactly | backend/app/jobs/telegram_bot.py:184-184 | exactly the spaces at both ends of a message are removed |
| Conversation.PartitionExact | backend/app/jobs/telegram_bot.py:495-508 | partitioning undoes joining when the front holds no separator |
| Conversation.RangeUnpacks | backend/app/jobs/telegram_bot.py:505-510 | a range payload comes apart into exactly what was put in |
| Conversation.Chat.HandleMessage | backend/app/jobs/telegram_bot.py:462-541 | the new state and the query of a message, or an unchanged state when it raises |
| Conversation.HandledDirectly | backend/app/jobs/telegram_bot.py:181-221 | packing actions into strings and unpacking them again never changes what a message does |
| Conversation.TapEffect | backend/app/jobs/telegram_bot.py:181-221 | what each button does in every state, with any spaces around its label |
| Conversation.AlwaysShaped | backend/app/jobs/telegram_bot.py:462-541 | in every run, expiring at any point, a type implies documents and waiting implies a section |
| Conversation.TypeMeaning | backend/app/jobs/telegram_bot.py:476-483 | the stored type is c iff c was chosen at some step and only range prompts, unreadable ranges and impossible periods came since |
| Conversation.DocumentsAsked | backend/app/jobs/telegram_bot.py:494-523 | a document query is narrowed to c iff c was the type last chosen and still stands |
| LongPoll.Poller.HandleBatch | backend/app/jobs/telegram_bot.py:570-575 | offset and attempts after a batch, up to the first handler that raises |
| LongPoll.BatchExactly | backend/app/jobs/telegram_bot.py:570-575 | of the updates of any batch whose id can be read, those up to the first raising one are attempted, and the offset stands behind the last of them, where a missing id counts as 0 |
| LongPoll.BatchPrefix | backend/app/jobs/telegram_bot.py:570-575 | of numbered updates a prefix is attempted that ends at the first raising one, and the offset stands behind it |
| LongPoll.AttemptedInOrder | backend/app/jobs/telegram_bot.py:558-589 | in every run the attempts are a prefix of the arrived updates: each once, in order, none skipped |
| LongPoll.EveryAnswerAdvances | backend/app/jobs/telegram_bot.py:558-589 | every answered poll gets at least one update further, so a raising handler never blocks the queue |
| ObjectPath.SplitJoin | frontend/app/utils/object-path.ts:6-6 | joining dot-free names and splitting gives back those that are not empty |
| ObjectPath.SplitNames | frontend/app/utils/object-path.ts:6-6 | the names of a path are not empty and hold no dot |
| ObjectPath.GetByPath | frontend/app/utils/object-path.ts:4-13 | the walk reads what the path leads to, and nothing for a non-object or an empty path |
| ObjectPath.SetByPath | frontend/app/utils/object-path.ts:19-33 | on real objects: one field of one object changes, behind it a chain of new objects, one per missing step, down to the value |
| ObjectPath.WriteThenRead | frontend/app/utils/object-path.ts:4-33 | on tree-shaped objects what was written is read back |
| ObjectPath.WriteElsewhere | frontend/app/utils/object-path.ts:4-33 | paths that are neither part of the written one nor an extension of it read as before |
| ObjectPath.WriteTwice | frontend/app/utils/object-path.ts:19-33 | two writes leave the heap the second alone would have left |
| ObjectPath.DocumentPage.SetFieldValue | frontend/app/composables/workspace/useDocumentPage.ts:77-88 | the model is a written shallow copy; dirty and the field's error change as asked |
| ObjectPath.FieldWritten | frontend/app/composables/workspace/useDocumentPage.ts:77-81 | the read and write laws hold from the old model to the new one |
| ObjectPath.OldModel | frontend/app/composables/workspace/useDocumentPage.ts:77-81 | the replaced model is untouched iff the first name is the only one or leads to no object; otherwise it shows the new value too |

## Left out

- RolePermissions.PermissionRowsToFlatKeys: states the set of keys; the sorting of the list is not modelled, and both sides compare sorted duplicate-free lists.
- PermissionPayload.FormPayloadAccepted: the shipped catalogue is a parameter with the properties it has (distinct types and prefixes, known actions, `view` in each list); the literal tables are not compared. Levels are integers.
- MeetingReminders.DueMeetingReminders: the fallback for meetings without a schedule row is left out; it publishes by design on every tick and keeps no status.
- MeetingReminders.MovedOnceInWindow: a schedule row is inserted once; rescheduling an existing row is not modelled.
- Outbox.Drains: later rows have later creation times, as the publisher's ordering presumes; rows with equal times may be overtaken by any of their equals.
- Sessions.RotatedOnce: holds of refreshes that do not overlap; `Refreshes.GrantedExactly` says who succeeds when they do, with deleting the old token and issuing the new pair as one step.
- Sessions.SoundRun: each session operation is one step; a token stored half-way while its user is being revoked is not modelled. Cookies, CSRF and the JWT encoding are left out.
- ExportJobs.MutualExclusion: the API that deletes an export job and the clock of the database (rows stale after five minutes) are left out; any session may open any rows.
- DateText.MatchPrefixPrefers: digits are ASCII; other Unicode digits, which the pattern also reads, are not modelled.
- DateText.IsoRoundTrip: of the formats the ISO reader accepts only the one the bot writes is modelled, which is all it is given.
- Conversation.DocumentsAsked: reads and writes of the state succeed; the code also goes on silently when Redis fails, and then a tap can be lost.
- LongPoll.AttemptedInOrder: updates carry integer ids, as Telegram's do; a missing id is read as 0 and would make the server repeat updates.
- ObjectPath.WriteThenRead: objects have own fields only; inherited names such as `__proto__`, array lengths and accessors are not modelled.
- Workspace.LatestWins: the columns of a kanban view are one reply; loading more of a stage, filters and route handling are left out.
- ApiRequests.OneReadPerKey: the checks before a request starts, toasts and session handling are left out, and the auth store is taken to be available.
- Secrets.ProtectSeals: keys are lower-cased as ASCII; a stored text that claims to be sealed but is not raises in the code and is not modelled.
- Settings.UpdateAppConfig: the row exists; creating it with defaults, the runtime cache and recording verified destinations are left out.
- RateLimit.LockoutMeaning: lock minutes and the failure limit are fixed over the log; hashing the e-mail is one name per account.
- HTTP routers, ORM models, migrations, search, storage, mail, exports' contents, and everything rendered on screen or in a chat message.
- `resolveCreateReturnTo`, badge, file, font and URL helpers: easy members only.
