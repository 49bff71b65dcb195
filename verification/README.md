# Verified model of the backend's protocols

A Dafny model of the stateful parts of a layered web backend: the idempotency-key protocol,
attachment blobs against transactional rows, keyset pagination and its cursors, optimistic
concurrency on items, single-use links, sessions, roles and impersonation, the retention
job and the audit trail.  Each part is a set of functions that say what one step does, a
machine whose runs are arbitrary lists of steps, and theorems about every run.  Where the
program works by changing fields in place, a class carries the same operations out and is
proved to do what the functions say.

`dafny verify dfyconfig.toml` checks the project.

| files | part |
|---|---|
| `Fingerprint`, `IdempotencyStore`, `IdempotencyRuns` | the `Idempotency-Key` protocol, one transaction at a time and interleaved |
| `TransactionalHooks`, `LocalStorage`, `Attachments` | hook pairs on a session, blobs on disk, and both together with rows and savepoints |
| `Numerals`, `CursorCodec`, `Calendar`, `Pagination`, `RequestLog` | decimal text, base64url cursors (section 5 of RFC 4648), civil dates, the keyset walk, the query on top |
| `Etag`, `Items` | `If-Match` (section 13.1.1 of RFC 9110) and versioned writes across transactions |
| `AccountLinks`, `Sessions` | mailed single-use links; refresh and access tokens |
| `Authorization`, `Accounts`, `Impersonation` | the permission fold, the account and role services, tokens with an `act` claim (section 4.1 of RFC 8693) |
| `Retention`, `AuditTrail`, `AuditLog` | the batched deletion job; audit differences of one row as a replayable trail; the log a session writes |

What is taken as given:

- The clock of a machine never goes back, and all parts of one machine read the same clock.
- Hashes are injective and fresh tokens and keys are fresh; a presented token is one that was minted.
- The database: unique inserts are atomic, `now()` is the start of the transaction, a conditional
  update waits for a concurrent writer of the same row and then sees its result, constraints hold.
- A response that carries an `ETag` is seen only once its transaction has committed: the create and patch
  routes tag a row they have flushed, and the session commits when the request ends.
- Entries of the audit log are written in the transaction of the rows they are about, and are undone with it.
- One service call is one transaction, except in `IdempotencyRuns` (a claim is three steps) and
  `Items` (each load and flush is a step).
- `IdempotencyRuns` treats reading a found row and restarting it as one step.  Nothing in the program
  locks the row in between, so two takeovers of the same stale claim could overlap.
- `IdempotencyRuns.Timely`: a running call finishes its last write, or dies, before its claim is older
  than the in-flight timeout.  `OutlivingTheTimeout` shows that this is needed: completion and release
  carry no ownership token.

Where the program does less than its text or one would expect:

- The comment at app/services/auth_service.py:143-145 says access tokens already minted keep working
  after a password change.  The code at app/api/deps.py:208-226 cuts them off, by whole seconds; the
  model follows the code (`Sessions.PasswordChangeCutsSessions`, `Sessions.CutFallsOnTheSecond`), so a
  token minted in the same second as the change survives it (`Sessions.SameSecondSurvives`).
- A deployment whose retention is shorter than its in-flight timeout loses live claims:
  `IdempotencyRuns.RetentionMustCoverTimeout` gives the exact condition.
- A cooldown longer than the link's lifetime (by more than a microsecond) is forgotten by the expiry
  sweep: `AccountLinks.SweepsUnobservableExactlyWhen` gives the exact condition for the links issued,
  `AccountLinks.RedemptionsUnobservableExactlyWhen` for the answers to confirmations.
- A removal or an upload undone by its own savepoint leaves its hook behind: a commit then deletes the
  blob of a live row (`Attachments.UndoneRemovalLosesTheBlob`) or keeps an orphan for ever
  (`Attachments.UndoneUploadIsOrphaned`, `Attachments.OrphansStay`).
  `Attachments.CommitIsCleanExactlyWhenHooksAgree` gives the exact condition.
- Fingerprints of different requests coincide exactly when a NUL byte is involved:
  `Fingerprint.CollidesExactlyWithNul`.
- The built-in `user` role cannot be deleted but can be renamed away, after which registration fails
  (`Accounts.RenamedAway`): `Accounts.RegistrationFailsExactlyWhenRenamed` gives the exact condition.
- A column that was not loaded when it was overwritten is recorded with a null old value, so the old
  value is lost (`AuditTrail.LostOldValue`) and a restoration can read as an update
  (`AuditTrail.MislabelledRestore`): `AuditTrail.BackwardReplays` and
  `AuditTrail.LabelledExactlyWhenSeen` give the exact conditions.

## Model

| member | source | states |
|---|---|---|
| `Fingerprint.PreimageLayout` | app/services/idempotency_service.py:10-17 | what is hashed is method, a zero byte, path, a zero byte, body |
| `Fingerprint.FingerprintIdentifiesRequest` | app/services/idempotency_service.py:10-17 | requests whose method and path carry no NUL have equal fingerprints if and only if they are the same request |
| `Fingerprint.CollidesExactlyWithNul` | app/services/idempotency_service.py:10-17 | a different request with the same fingerprint exists exactly when the method, path or body contains a NUL, and one with the same method exactly when the path or body does |
| `IdempotencyStore.IdempotencyService.Restart` | app/repositories/idempotency_repo.py:30-39 | the row becomes a fresh unfinished claim with the new hash and start |
| `IdempotencyStore.IdempotencyService.ResolveFound` | app/services/idempotency_service.py:73-95 | an abandoned unfinished row is taken over, another hash is a mismatch, an unfinished row is in flight, a finished one replays |
| `IdempotencyStore.IdempotencyService.ClaimKey` | app/services/idempotency_service.py:30-49 | get, insert and re-get without a competitor give the sequential claim that the lemmas are about |
| `IdempotencyStore.IdempotencyService.Complete` | app/services/idempotency_service.py:51-61 | a completion fills in the answer of an existing row and ignores a missing one |
| `IdempotencyStore.IdempotencyService.Release` | app/services/idempotency_service.py:63-66 | a release removes the row if it is there and nothing else |
| `IdempotencyStore.NeverWedged` | app/services/idempotency_service.py:73-95 | past the timeout a claim is never told to wait; it is fresh exactly when the row is missing or unfinished, else it replays or mismatches and changes nothing |
| `IdempotencyStore.YoungClaimStands` | app/services/idempotency_service.py:73-95 | before the timeout an unfinished row stays as it is: the same request is told to wait, any other that it does not match |
| `IdempotencyStore.CompleteThenClaim` | app/services/idempotency_service.py:51-87 | once completed, the same request gets back exactly the stored answer at any later time, any other request a mismatch |
| `IdempotencyRuns.StepKeepsInv` | app/core/http/idempotency.py:159-191 | every step of every interleaving keeps: one live runner per key, whose row exists, is unfinished and carries its hash and start |
| `IdempotencyRuns.RunKeepsInv` | app/core/http/idempotency.py:87-191 | the same over whole runs of claims, answers, failures, deaths and prunes |
| `IdempotencyRuns.StoredAnswerSettlesTheKey` | app/services/idempotency_service.py:73-87 | from a state holding a stored answer, until the row is pruned, nobody runs the route for that key and every later answer is read off the row |
| `IdempotencyRuns.WhichAnswersAreKept` | app/core/http/idempotency.py:170-205 | a finished call's answer is replayed from then on exactly when its status is 2xx, its body at most 64 KiB and empty or JSON; an undecodable one leaves the claim unfinished, and after any other the next claim is fresh |
| `IdempotencyRuns.FailuresAreNotKept` | app/core/http/idempotency.py:159-191 | a route that raises forgets the key and the next claim is fresh; a call that dies leaves its claim behind |
| `IdempotencyRuns.ExactlyOnce` | app/core/http/idempotency.py:170-205 | after a call has succeeded in that way, no later call with its key runs; the same request bytes get exactly that status, body and content type, any other request a mismatch |
| `IdempotencyRuns.UninterruptedClaim` | app/services/idempotency_service.py:30-49 | a claim's steps run back to back are the sequential claim |
| `IdempotencyRuns.RaceHasOneWinner` | app/services/idempotency_service.py:30-49 | of two calls that both find no row, the first to insert runs and the other is told to wait, or that it does not match |
| `IdempotencyRuns.VanishedWinner` | app/services/idempotency_service.py:30-49 | if the row is gone again when the loser looks, it is told to wait |
| `IdempotencyRuns.KeyNeverWedges` | app/services/idempotency_service.py:30-95 | from any state, an unopposed claim past the timeout runs the route if the row is absent or unfinished, else gets the row's answer |
| `IdempotencyRuns.OutlivingTheTimeout` | app/services/idempotency_service.py:73-95 | without the timeliness hypothesis some run has two live runners for one key, for every setting |
| `IdempotencyRuns.ShortRetention` | app/services/idempotency_service.py:68-71 | a retention below the timeout lets the pruner remove a live claim, in a timely run |
| `IdempotencyRuns.RetentionMustCoverTimeout` | app/services/idempotency_service.py:68-95 | all timely runs have at most one runner per key if and only if retention is at least the timeout |
| `TransactionalHooks.StepRefines` | app/db/transactional_hooks.py:16-60 | one step of the session with flags and deferred removal is one step of a session that removes a pair at once |
| `TransactionalHooks.LateRemovalIsUnobservable` | app/db/transactional_hooks.py:47-60 | over any run, deferred deregistration leaves the same callbacks run in the same order as immediate removal |
| `TransactionalHooks.EachPairRunsOnce` | app/db/transactional_hooks.py:16-45 | a registered pair runs exactly the callback chosen by the first outcome outside savepoints after registration, once, and nothing if there is none |
| `TransactionalHooks.NothingRunsBeforeRegistration` | app/db/transactional_hooks.py:16-45 | no pair has run anything before it is registered, in any run |
| `TransactionalHooks.DispatchRunsEachOnce` | app/db/transactional_hooks.py:25-44 | one dispatch runs each live pair's chosen callback once and no other |
| `TransactionalHooks.HookRegistry.Notify` | app/db/transactional_hooks.py:25-44 | one listener ignores savepoints and second calls, else retires its pair, runs its callback and schedules removal |
| `TransactionalHooks.HookRegistry.Announce` | app/db/transactional_hooks.py:25-44 | notifying the listeners in turn is the dispatch the theorems are about |
| `LocalStorage.Disk.Save` | app/core/storage/local.py:14-25 | a bounded upload within the limit is stored as the concatenation of its chunks with that size; a larger one is refused and leaves no blob |
| `LocalStorage.Disk.Open` | app/core/storage/local.py:27-34 | reading yields non-empty chunks that join to exactly the stored bytes |
| `AttachmentLedger.CommitBalancesExactlyWhenAgreed` | app/services/attachment_service.py:110-152 | a commit leaves the books balanced if and only if the armed deletions agree with the rows at that moment |
| `Attachments.OutcomeRunsArmed` | app/services/attachment_service.py:137-152 | the outer outcome schedules exactly the armed deletions and disarms every pair |
| `Attachments.StepKeepsInv` | app/services/attachment_service.py:68-152 | every add, refused or failed add, remove, savepoint, rollback and cleanup, and a commit made while the hooks agree with the rows, keeps blobs, rows, hooks and tasks in balance |
| `Attachments.CommitIsCleanExactlyWhenHooksAgree` | app/services/attachment_service.py:110-152 | in any balanced world a commit keeps the balance if and only if the hooks agree with the rows |
| `Attachments.EveryRowHasItsBlob` | app/services/attachment_service.py:68-152 | in every run where no savepoint undoes attachment rows, each committed row has its blob, of the recorded size |
| `Attachments.OuterLevelWorkIsNeverUndone` | app/services/attachment_service.py:68-113 | runs whose attachment work is at the outer level are such runs, however savepoints nest |
| `Attachments.NoOrphans` | app/services/attachment_service.py:137-155 | when the session is idle and cleanup has run, the stored keys are the committed keys plus those whose deletion failed |
| `Attachments.OutcomeQuiets` | app/db/transactional_hooks.py:25-44 | the end of the outer transaction is what makes a session idle |
| `Attachments.UndoneRemovalLosesTheBlob` | app/services/attachment_service.py:110-152 | after a removal undone by its savepoint, the commit and its cleanup leave a committed row without its blob |
| `Attachments.UndoneUploadIsOrphaned` | app/services/attachment_service.py:68-94 | after an upload undone by its savepoint, the commit leaves a stored blob that no row, hook or task names |
| `Attachments.OrphansStay` | app/services/attachment_service.py:137-152 | and whatever the session does afterwards, it stays that way for ever |
| `Attachments.UnwindingIsSilent` | app/db/transactional_hooks.py:25-44 | ending the open savepoints, either way, runs no hook |
| `Numerals.TextRoundTrip` | app/schemas/pagination.py:18-27 | reading a decimal written by str gives back the integer, for every integer |
| `CursorCodec.Base64RoundTrip` | app/schemas/pagination.py:18-25 | the lenient decoder undoes the encoder for every byte string |
| `CursorCodec.EncodedShape` | app/schemas/pagination.py:12-20 | encoded text has length 4 per started group of 3 bytes and uses only the accepted alphabet |
| `CursorCodec.IsoRoundTrip` | app/schemas/pagination.py:18-27 | reading an ISO moment gives back every field, and it has at most 32 characters |
| `CursorCodec.CursorRoundTrip` | app/schemas/pagination.py:18-29 | decoding an issued cursor gives back its moment and identifier, for every pair |
| `CursorCodec.IssuedCursorFits` | app/schemas/pagination.py:12-20 | an issued cursor passes the query's pattern if and only if its raw text has at most 150 characters |
| `CursorCodec.IssuedCursorAccepted` | app/schemas/pagination.py:12-20 | so does every cursor with an identifier of at most 116 digits |
| `CursorCodec.ForeignSymbolsAreSkipped` | app/schemas/pagination.py:23-29 | the decoder skips characters outside its alphabet, and padding where no group is under way |
| `CursorCodec.UnfinishedGroupsAreRefused` | app/schemas/pagination.py:23-29 | a group with too few symbols or too little padding is refused |
| `CursorCodec.DecodedMomentsExist` | app/schemas/pagination.py:23-29 | whatever text decodes carries a moment that exists |
| `Pagination.SortedIsSorted` | app/repositories/request_log_repo.py:56-64 | (moment, id) descending is a total order and sorting keeps exactly the rows |
| `Pagination.OnlyOneOrder` | app/repositories/request_log_repo.py:56-64 | a set of rows has one descending arrangement |
| `Pagination.PageIsNewestCandidates` | app/schemas/pagination.py:38-44 | fetching limit + 1 and slicing gives the newest rows, with a cursor at the last of them exactly when more remain |
| `Pagination.LeftOffIsOlder` | app/repositories/request_log_repo.py:56-64 | every candidate left off a page has a smaller (moment, id) than every row on it |
| `Pagination.RestOfTheResult` | app/repositories/cursor.py:9-17 | the cursor's condition admits exactly the rows the page left out |
| `Pagination.ShownRowsMatch` | app/repositories/request_log_repo.py:25-64 | a walk over a changing table shows only rows that matched and were there when read |
| `Pagination.NothingTwice` | app/schemas/pagination.py:38-44 | whatever is inserted or deleted between pages, the walk is strictly descending |
| `Pagination.WalkIsNewestFirst` | app/repositories/request_log_repo.py:56-64 | in a walk over a changing table every row has a later moment, or the same moment and a greater identifier, than any after it |
| `Pagination.NothingMissed` | app/schemas/pagination.py:38-44 | a finished walk shows every matching row present throughout |
| `Pagination.ShownExactlyOnce` | app/schemas/pagination.py:38-44 | such a row occurs in the walk exactly once |
| `Pagination.FrozenWalkIsTheWholeResult` | app/schemas/pagination.py:38-44 | over a table that does not change the walk ends within candidates / limit pages, rounded up, and equals the whole sorted result |
| `RequestLog.Where` | app/repositories/request_log_repo.py:25-47 | the conditions appended one by one hold of exactly the rows the query means and the cursor reaches; the outcome ranges are the displayed outcomes |
| `RequestLog.QueryMeans` | app/repositories/request_log_repo.py:16-47 | a query in plain terms, empty texts being no filter |
| `RequestLog.ScopeDecides` | app/services/support.py:25-30 | the wide scope leaves a query alone; the narrow one keeps the other filters and names the owner |
| `RequestLog.OwnScopeShowsOnlyOwnRows` | app/services/support.py:25-30 | a caller with own scope sees only its own rows over the whole walk, whatever user the query names |
| `Calendar.DateRoundTripsDay` | app/schemas/pagination.py:18-27 | every day since the first of year 1 has a valid date whose number is the day's |
| `Calendar.CivilRoundTrip` | app/schemas/pagination.py:18-27 | every instant a datetime can hold has valid fields that read back as that instant |
| `Calendar.MomentRoundTrip` | app/schemas/pagination.py:18-27 | every valid moment is the writing of its instant, so no instant is written in two ways |
| `Calendar.LeapYears` | app/schemas/pagination.py:18-27 | the days before a year follow the Gregorian rule in closed form |
| `RequestLog.IssuedCursorReadsBack` | app/schemas/pagination.py:47-58 | an issued cursor passes the query's pattern and reads back as its position, for every instant a datetime can hold and identifiers of at most 116 digits |
| `RequestLog.ForeignTextShowsNothing` | app/schemas/pagination.py:47-58 | a cursor text the pattern or the decoder refuses shows no row |
| `RequestLog.TextWalkIsTheWalk` | app/repositories/cursor.py:9-17 | the walk a client makes with cursor texts, each checked against the pattern and decoded, is the keyset walk |
| `Etag.ParseEtag` | app/core/http/concurrency.py:19-27 | parsing step by step gives the tag's version, and the version of every tag the API serves |
| `Etag.EtagRoundTrip` | app/core/http/concurrency.py:15-27 | parsing undoes formatting for every version, in weak and strong form |
| `Etag.ServedTagIsAccepted` | app/core/http/concurrency.py:30-43 | sending back a served tag asks for exactly that version |
| `Etag.OtherHeaders` | app/core/http/concurrency.py:30-43 | a missing header, the star and an unreadable tag are told apart |
| `Items.StepKeepsInv` | app/services/item_service.py:35-62 | every load, flush, commit and rollback of any transaction keeps each transaction's view sound and the committed history one chain |
| `Items.NoLostUpdate` | app/repositories/item_repo.py:41-45 | over any interleaving, an item's committed writes are versions 1, 2, 3, ..., each computed from its predecessor, and the item is all edits applied in turn |
| `Items.IfMatchMeansWhatWasServed` | app/services/item_service.py:53-62 | a committed write that came with W/"n" was applied to exactly the content ever served under that tag |
| `Items.OnlyTheOwnerWrites` | app/repositories/item_repo.py:34-39 | over every run each committed write was made by the item's one owner to a row that was not deleted, so a deletion is the last write |
| `Items.OnlyTheOwnerIsServed` | app/services/item_service.py:28-33 | nobody is ever served an item that is not their own or was deleted when read |
| `Items.UndisturbedEditTakesEffect` | app/services/item_service.py:35-51 | the owner's edit at the right version takes effect once and touches no other item |
| `Items.OtherEditsAreRefused` | app/services/item_service.py:53-62 | a stranger's edit, a stale one, or one to a deleted or missing item changes nothing |
| `Items.HeaderDecides` | app/api/v1/routes/items.py:56-82 | a request takes effect with the star or the tag of the present version, and with no header, an unreadable one or another tag changes nothing |
| `Items.TwoEditsInOneTransaction` | app/repositories/item_repo.py:41-45 | a transaction reads its own writes, and two edits in it are two versions |
| `Items.LoadingAgainKeepsTheCopy` | app/repositories/item_repo.py:34-39 | a session keeps the copy it has when the item is loaded again |
| `Items.CreatedAndServed` | app/services/item_service.py:24-33 | a new item is its owner's, live, at version 1, and is served to its owner only |
| `Items.RollbackLeavesNothing` | app/repositories/item_repo.py:41-45 | a rollback frees what the transaction held and leaves no trace of what it wrote |
| `Items.NoLockOutlivesItsTransaction` | app/repositories/item_repo.py:41-45 | once all transactions have ended, in any run, no item is locked |
| `Items.PatchIsTheEdit` | app/services/item_service.py:42-45 | setting the given fields one by one is the edit the transactions apply |
| `Items.Item.Patch` | app/services/item_service.py:35-45 | the loop over the sent fields changes those and no other |
| `Items.SoftDeleteForOwner` | app/repositories/item_repo.py:47-53 | every live item of the owner is stamped and nothing else changes, even if objects repeat |
| `AccountLinks.LatestDecides` | app/services/single_use_tokens.py:64-68 | asking the cooldown of the latest row is asking it of all rows |
| `AccountLinks.AtMostOneUnspent` | app/services/single_use_tokens.py:37-51 | in every run at most one unspent link exists per account and purpose |
| `AccountLinks.RedeemedOnceWhileNewest` | app/services/single_use_tokens.py:71-81 | in every run each link is redeemed at most once, for its own purpose and account, before it expires and before a newer one of that purpose was issued |
| `AccountLinks.VerifiedExactlyWhenConfirmed` | app/services/email_verification_service.py:46-57 | in every run an address is verified exactly when a verification link of its account was redeemed |
| `AccountLinks.SentLinkWorks` | app/services/single_use_tokens.py:37-81 | a link that is sent can be redeemed once, for its purpose, until it expires, while its account is open |
| `AccountLinks.CooldownDecides` | app/services/single_use_tokens.py:12-18 | a second request sends another link exactly when the cooldown has passed |
| `AccountLinks.NobodyElseIsSentALink` | app/services/email_verification_service.py:36-44 | no open account, or an address already verified: nothing is sent |
| `AccountLinks.MailBound` | app/services/single_use_tokens.py:12-18 | the n links sent to one account for one purpose in a window of width W satisfy (n - 1) * cooldown <= W, with sweeps interleaved |
| `AccountLinks.SweepsAreUnobservable` | app/repositories/single_use_token_repo.py:50-53 | under the same settings a store swept at any moments issues and redeems as one never swept |
| `AccountLinks.SweepForgetsTheCooldown` | app/repositories/single_use_token_repo.py:24-33 | with a longer cooldown a sweep lets a second link out early |
| `AccountLinks.SweepsUnobservableExactlyWhen` | app/repositories/single_use_token_repo.py:50-53 | sweeping never changes which links are issued if and only if no cooldown exceeds its lifetime by more than a microsecond |
| `AccountLinks.RedemptionsAlike` | app/repositories/single_use_token_repo.py:12-22 | with every redeemable purpose's cooldown covered, a swept store and one never swept give the same answer to every confirmation, even where they issue different links |
| `AccountLinks.SweepLetsARedemptionThrough` | app/repositories/single_use_token_repo.py:50-53 | otherwise some run redeems a link that without the sweep would not exist |
| `AccountLinks.RedemptionsUnobservableExactlyWhen` | app/repositories/single_use_token_repo.py:50-53 | sweeping changes no answer to a confirmation, in runs that draw no token twice, if and only if every purpose has a cooldown of at most its lifetime and a microsecond, or no lifetime at all |
| `AccountLinks.LinkService.IssueLink` | app/services/single_use_tokens.py:37-51 | nothing within the cooldown; otherwise earlier links are spent and one new row is created |
| `AccountLinks.LinkService.ConfirmToken` | app/services/password_reset_service.py:52-64 | an active link of an open account is spent; a reset spends the account's other links of its purpose |
| `Sessions.PasswordChangeCutsSessions` | app/services/auth_service.py:146-155 | after a change or reset every earlier refresh token is refused for ever, and an access token still accepted was minted less than a second before it or later |
| `Sessions.FreshTokenWorksUntilExpiry` | app/api/deps.py:208-226 | a token minted now is accepted, while the account is open and its password unmoved, exactly until it expires |
| `Sessions.CutFallsOnTheSecond` | app/api/deps.py:208-212 | in any run, a token minted before a change is accepted afterwards if and only if it was minted in the same whole second and has not expired, while the account is otherwise left alone |
| `Sessions.SameSecondSurvives` | app/api/deps.py:208-212 | a concrete run in which a token minted just before a reset outlives it |
| `Sessions.DeadStaysDead` | app/repositories/refresh_token_repo.py:22-42 | a revoked or deleted refresh token never comes back, over any run |
| `Sessions.SignOutIsForEver` | app/services/auth_service.py:137-138 | a refresh token that was signed out is refused for ever, over any run |
| `Sessions.RefreshWorksUntilExpiry` | app/services/auth_service.py:85-101 | the refresh token of a sign-in is accepted exactly until its expiry, unless it is signed out or its account closes or moves its password, whatever else happens |
| `Sessions.RenewalMints` | app/services/auth_service.py:85-101 | an accepted refresh hands out one access token for its account and changes nothing else |
| `Sessions.ClosingIsForEver` | app/api/deps.py:215-226 | after an account closes none of its refresh or access tokens is accepted again, over any run |
| `Sessions.ClosedAccountsStayOut` | app/services/auth_service.py:68-101 | without an open account nobody signs in or changes a password, and a closed account does not come back |
| `Sessions.SweepLeavesTheLive` | app/repositories/refresh_token_repo.py:39-42 | a sweep leaves exactly the rows that have not expired |
| `Sessions.StampsOnlyAdvance` | app/services/auth_service.py:146-155 | an account's password stamp never moves back, over any run |
| `Sessions.SweepsAreUnobservable` | app/repositories/refresh_token_repo.py:39-42 | runs with and without sweeps stay indistinguishable |
| `Sessions.SweptStoreAnswersAlike` | app/jobs/maintenance.py:61-67 | every refresh gets the same answer, and the same access tokens are handed out, with or without sweeps |
| `Sessions.AuthService.IssuePair` | app/services/auth_service.py:157-170 | a sign-in mints both tokens and stores the refresh row |
| `Sessions.AuthService.RefreshPair` | app/services/auth_service.py:85-101 | a new access token exactly when the refresh token is live, its row active and its account open |
| `Sessions.AuthService.Change` | app/services/auth_service.py:146-155 | a wrong current password changes nothing; otherwise the stamp moves and every session goes |
| `Authorization.Widest` | app/core/authorization.py:68-75 | the nested loop computes, for every permission, all if any grant says all, else own if any does, else nothing |
| `Authorization.FoldIsAJoin` | app/core/authorization.py:68-81 | combining two lists of roles joins their scopes in the lattice nothing < own < all |
| `Authorization.OrderDoesNotMatter` | app/core/authorization.py:68-81 | two lists holding the same roles, in any order and any number of times, give the same scope |
| `Authorization.AddingARoleNeverNarrows` | app/core/authorization.py:68-81 | an extra role, anywhere in the list, never narrows any scope |
| `Authorization.SameGrantsSameScopes` | app/core/authorization.py:68-75 | grant lists with the same entries give the same dictionary |
| `Authorization.Granted` | app/core/authorization.py:94-98 | the listing holds exactly the dictionary's entries, in strictly ascending order of resource and action |
| `Authorization.EffectiveGrants` | app/services/role_service.py:37-46 | the listing shows (permission, scope) exactly when the scope decision says so, each permission once, for superadmins too; sorted, or in the catalogue's order for a superadmin |
| `Accounts.FindRole` | app/repositories/role_repo.py:11-13 | a role with the name, or proof that there is none |
| `Accounts.FindEmail` | app/repositories/user_repo.py:13-16 | an open account with the address, or proof that there is none |
| `Accounts.SetAccountKeeps` | app/services/user_service.py:82-115 | rewriting one account keeps the directory well-formed when roles exist and a new address was free |
| `Accounts.UserServiceKeeps` | app/services/user_service.py:96-147 | granting or taking a role, closing or removing an account keeps the directory well-formed and the administrator role as it is |
| `Accounts.UpdateRoleKeeps` | app/services/role_service.py:64-77 | an accepted role edit keeps names unique, grants catalogued and the administrator role as it is |
| `Accounts.DeleteRoleKeeps` | app/services/role_service.py:79-89 | an accepted role deletion leaves no account pointing at a missing role |
| `Accounts.DeleteRoleTouchesNoOpenAccount` | app/services/role_service.py:79-89 | it changes no open account |
| `Accounts.CreatedExactlyWhen` | app/services/role_service.py:57-62 | a role is created exactly when its name is free and its grants are known and distinct |
| `Accounts.EditedExactlyWhen` | app/services/role_service.py:64-77 | it is edited exactly when it exists, is not the administrator's, and the new name and grants are good |
| `Accounts.DeletedExactlyWhen` | app/services/role_service.py:79-89 | it is deleted exactly when it is not built in and no open account holds it |
| `Accounts.RemovalExactlyWhen` | app/services/user_service.py:131-147 | another open account is closed exactly when it does not outrank the caller, and nothing else changes |
| `Accounts.PasswordExactlyWhen` | app/services/auth_service.py:146-155 | the present password, and nothing else, changes the password or closes the account |
| `Accounts.GrantsAreCatalogued` | app/services/role_service.py:91-100 | every account's grants refer to known permissions, which is what the listing needs |
| `Accounts.OrdinaryRoleSurvivesExactlyWhen` | app/services/role_service.py:64-89 | the built-in user role survives any deletion, and an edit exactly when the edit keeps its name |
| `Accounts.RegistrationFailsExactlyWhenRenamed` | app/services/user_service.py:62-75 | after an accepted role edit, registering a free address is refused for want of the role exactly when the edit renamed the user role |
| `Accounts.RenamedAway` | app/services/role_service.py:64-77 | a seeded deployment with one account where registering works, the edit is accepted, and registering no longer works |
| `Accounts.GrantThenTake` | app/services/user_service.py:96-115 | taking back a role that was just granted restores the directory exactly |
| `Accounts.GrantingNeverNarrows` | app/services/user_service.py:96-102 | granting a role narrows no scope of any account and touches no other account |
| `Accounts.AccountStore.RegisterAccount` | app/services/user_service.py:62-75 | a taken address or missing role is refused; the first account ever is the administrator, later ones ordinary |
| `Accounts.AccountStore.Update` | app/services/user_service.py:82-94 | only the sent fields change, a taken address is refused |
| `Accounts.AccountStore.GiveRole` | app/services/user_service.py:96-102 | the role is added unless already held |
| `Accounts.AccountStore.TakeRole` | app/services/user_service.py:104-115 | the role is removed; dropping one's own administrator role is refused |
| `Accounts.AccountStore.Remove` | app/services/user_service.py:131-147 | another, not outranking, open account is closed |
| `Accounts.AccountStore.CollectGrants` | app/services/role_service.py:91-100 | the loop returns the wanted grants exactly when all are in the catalogue |
| `Accounts.AccountStore.RewriteRole` | app/services/role_service.py:64-77 | the administrator role, taken names and bad grants are refused; otherwise the role is replaced |
| `Impersonation.StepMintsProperly` | app/services/auth_service.py:103-120 | a new impersonation token comes from a request by another, open, unimpersonated account that may impersonate its subject then |
| `Impersonation.EveryImpersonationWasAllowed` | app/services/auth_service.py:103-120 | in every run each impersonation token was minted at some step in that way |
| `Impersonation.EveryImpersonationIsRecorded` | app/services/auth_service.py:117-135 | and the trail holds a start entry naming its author, subject and second |
| `Impersonation.AcceptedExactlyWhen` | app/api/deps.py:208-257 | a token is accepted exactly when it was minted, has not expired, its accounts are open with no later password change, and its impersonator still may |
| `Impersonation.GuardsExactlyWhen` | app/api/v1/routes/users.py:53-164 | for every route, who is let through: one's own affairs and every change to others' only as oneself, and what takes which permission |
| `Impersonation.BegunExactlyWhen` | app/services/auth_service.py:103-120 | an impersonation begins exactly when an unimpersonated caller with the permission asks for another open account it may act as |
| `Impersonation.BegunImpersonationWorks` | app/core/security.py:106-113 | its token is accepted from the moment it is minted |
| `Impersonation.StoppingIsRecorded` | app/api/v1/routes/auth.py:73-76 | stopping leaves one entry, and only under impersonation |
| `Impersonation.ChangesAreRightful` | app/services/user_service.py:82-147 | whatever any request changes about who an account is, its caller had the right to: its owner with the password, or for a removal a holder of the permission who is not outranked |
| `Impersonation.OwnRequestsTakeEffect` | app/services/user_service.py:82-129 | an accepted request about oneself leaves the address, name, password, preferences or items it asked for, or the account closed |
| `Impersonation.AdministrativeRequestsTakeEffect` | app/services/role_service.py:57-89 | an accepted administrative request leaves the account closed, the role held, dropped, created, replaced or gone, as asked |
| `Impersonation.OutsideStepsTakeEffect` | app/cli/actions.py:45-72 | signing up or an operator's command enrols exactly one account with the right role if the address is free, and grants the role it names |
| `Impersonation.ClosingTakesItems` | app/services/user_service.py:145-147 | an account closes with its own items and nobody else's |
| `Impersonation.ImpersonatedCallersAreStopped` | app/api/deps.py:269-299 | on every route that writes the caller's account or anything of others, an impersonated caller is refused |
| `Impersonation.GuardsStopTheRest` | app/api/deps.py:269-299 | every route an impersonated caller gets through writes at most the subject's own items and preferences |
| `Impersonation.ImpersonatedStepIsHarmless` | app/core/authorization.py:51-61 | no impersonated request, on any route, changes an account, a role or the set of tokens, or anything that belongs to somebody else |
| `Impersonation.ImpersonatedRequests` | app/api/deps.py:229-257 | every accepted impersonated request at any point of any run: properly minted earlier, still allowed now by both accounts' present state, and harmless |
| `Impersonation.ImpersonatedRunIsHarmless` | app/core/authorization.py:51-61 | any number of impersonated requests leaves all accounts, roles and tokens as they were |
| `Impersonation.PowerlessCallersTouchOnlyThemselves` | app/api/deps.py:280-299 | a caller holding none of the administrative permissions can by no route change a role, another account, another's things or its own roles, or obtain a token for somebody else |
| `Impersonation.PromotesExactlyWhen` | app/services/user_service.py:96-115 | a working token can by some route make an open account a superadmin if and only if it is not an impersonation token and its holder has users:update or roles:update |
| `Impersonation.ImpersonationAddsNothing` | app/api/deps.py:280-299 | whatever an impersonated request achieves, the subject's own token achieves, up to the trail |
| `Impersonation.PerformKeeps` | app/services/user_service.py:54-147 | every route keeps the directory well-formed |
| `Impersonation.RunKeepsDirectory` | app/services/role_service.py:57-100 | over every run addresses of open accounts and role names stay unique, links and grants resolve, and the administrator role keeps its name and grants |
| `Retention.LimitTakes` | app/repositories/base.py:69-75 | ordering by identifier with a limit of n takes n, or all there are |
| `Retention.FirstIsDownwardClosed` | app/repositories/base.py:69-75 | and always the smallest identifiers |
| `Retention.BatchTook` | app/repositories/base.py:61-77 | a batch deletes only rows before the cutoff, at most its size, and all of them if it comes back short |
| `Retention.EveryCommitIsSafe` | app/jobs/maintenance.py:30-39 | stopping after any batch has deleted only rows past retention at that batch's reading of the clock |
| `Retention.DrainIsExact` | app/jobs/maintenance.py:30-39 | a finished job leaves exactly the rows not before the last cutoff |
| `Retention.BatchCount` | app/jobs/maintenance.py:30-39 | the number of batches is the number of rows removed divided by 5000, plus one |
| `Retention.LogTable.DeleteBatchBefore` | app/repositories/base.py:61-77 | the statement's effect and its row count |
| `Retention.LogTable.PruneBatch` | app/services/support.py:17-22 | the cutoff is the present moment less the retention |
| `Retention.LogTable.Drain` | app/jobs/maintenance.py:30-39 | the loop ends for every table; it removes exactly what is older than the last cutoff and returns that number |
| `AuditTrail.ColumnHistory` | app/core/audit/listeners.py:82-96 | the loop fills both dictionaries with exactly the changed, not ignored columns; a deleted attribute reads as null |
| `AuditTrail.DifferencesHideSecrets` | app/core/audit/diff.py:45-58 | a difference shows the same two marks for every secret column, whatever it held |
| `AuditTrail.DifferencesIgnoreSecrets` | app/core/audit/diff.py:45-70 | neither a difference nor its label depends on what the secrets were |
| `AuditTrail.RenderingTellsApart` | app/core/audit/diff.py:28-42 | plain values of at most 1000 characters can be told apart in the log, longer ones and bytes leave their length |
| `AuditTrail.DocumentsFit` | app/core/audit/diff.py:73-76 | a document is stored whole exactly when it has at most 64 KiB, and otherwise names every column |
| `AuditTrail.MaintainedIsUnseen` | app/core/audit/listeners.py:82-96 | what the mapper writes by itself during a flush leaves no trace |
| `AuditTrail.StepForward` | app/core/audit/diff.py:49-58 | one record's new sides keep a view of the row right, and teach it every changed column |
| `AuditTrail.StepBackward` | app/core/audit/diff.py:49-58 | its old sides restore a changed column exactly when the flush could see what it overwrote |
| `AuditTrail.ForwardReplays` | app/core/audit/diff.py:49-58 | over any chain of flushes the new sides lead to the last state on every visible column no truncated record names; a column unknown at first is known in the end exactly when it changed |
| `AuditTrail.BackwardReplays` | app/core/audit/diff.py:49-58 | the old sides in reverse lead back to the first state if and only if the first flush that changed the column could see what it overwrote |
| `AuditTrail.UndoneExactlyWhenSeen` | app/core/audit/listeners.py:88-95 | a flush can be undone from its record exactly when the overwritten value was loaded or null |
| `AuditTrail.LostOldValue` | app/core/audit/listeners.py:88-95 | a concrete row whose title, overwritten before it was loaded, cannot be read back |
| `AuditTrail.WholeLife` | app/core/audit/listeners.py:214-221 | what a replay of the insert record and the updates shows is right, and it shows a column exactly when it was loaded at birth or changed since; the delete record agrees on the columns loaded then |
| `AuditTrail.LabelledExactlyWhenSeen` | app/core/audit/diff.py:61-70 | a record says soft delete, restore or update according to what happened to the row exactly when the old deletion stamp was loaded or null |
| `AuditTrail.MislabelledRestore` | app/core/audit/diff.py:61-70 | a concrete row restored under the label of an update |
| `AuditTrail.DeletionsAlternate` | app/core/audit/diff.py:61-70 | soft deletions and restorations take turns, deletion first for a live row, and the last one says whether the row is deleted |
| `AuditLog.FlushTellsOfEachRow` | app/core/audit/listeners.py:150-260 | of all a flush of any number of rows and links writes, the entries about one row are exactly the record of what happened to that row, or none |
| `AuditLog.LogTellsOfEachRow` | app/core/audit/listeners.py:247-260 | over any number of flushes, some failing, the log's entries about one row are its creation, edits and deletion in order and nothing else |
| `AuditLog.LogHoldsTheTrail` | app/core/audit/listeners.py:150-260 | for a row that is edited these entries are the trail of its chain of states |
| `AuditLog.LogReplays` | app/core/audit/diff.py:49-58 | so the written log replays row by row: forward it never misleads, and backward it leads to the first state if and only if the first change could see what it overwrote |
| `AuditLog.LogMarksAlternate` | app/core/audit/diff.py:61-70 | in the written log a row's soft deletions and restorations take turns and the last says how the row stands |
| `AuditLog.LogHoldsTheWholeLife` | app/core/audit/listeners.py:150-221 | from the flush that creates a row to the one that deletes it, the log holds its insert record, its trail and its delete record |
| `AuditLog.LogHidesSecrets` | app/core/audit/diff.py:45-58 | over any number of flushes no entry shows a password, token hash, secret or API key |
| `AuditLog.LogLeavesTablesOut` | app/core/audit/policy.py:16-25 | nor does any speak of the excluded tables |
| `AuditLog.LinkEntryNamesBothEnds` | app/core/audit/listeners.py:193-221 | a link's entry names both ends by key, on the new side when made and on the old when removed |
| `AuditLog.LinksReplay` | app/core/audit/listeners.py:107-185 | for one object and one link table, among any flushed objects with any number of relationships, the link differences lead from the first set of linked rows to the last, and back |
| `AuditLog.AuditBuffer.FlushUnits` | app/core/audit/listeners.py:267-296 | a failed or suppressed flush writes nothing and leaves nothing for a later flush |
| `AuditLog.AuditBuffer.FlushAll` | app/core/audit/listeners.py:267-296 | any sequence of flushes leaves the log the theorems above are about |

## Left out

- IdempotencyRuns.RunKeepsInv: needs `Timely` and a retention of at least the timeout; both are shown necessary.
- IdempotencyRuns.ExactlyOnce: for a stored answer whose body is UTF-8; a 2xx body that is not raises while being decoded, so the row stays unfinished.
- Attachments.EveryRowHasItsBlob: for runs in which no savepoint undoes attachment rows; the exact condition per commit is a theorem of its own.
- CursorCodec.CursorRoundTrip: `datetime.fromisoformat` and `int` are modelled on the spellings the encoder produces (UTC, ASCII digits); other spellings Python accepts are refused by the model.
- AuditTrail.ForwardReplays: on rendered values, and not for redacted, ignored or mapper-maintained columns.
- Retention.LogTable.Drain: rows are not inserted while the job runs.
- Overlapping takeovers inside `_resolve`, and runs that outlive the in-flight timeout.
- The idempotency middleware's key syntax, captured response chunks, replayed request stream and responses; the stored method and path columns.
- Uploads whose source fails midway, file names, content types, path checks of the storage root.
- AuditLog.LinksReplay: what the mapper reports of a collection is taken to be the difference of its two sets.
- The audit trail's refusal of bulk statements and database cascades; the audit log's own filters, whose shape is the request log's.
- Password hashing, signatures, SHA-256, token identifiers (`jti`): abstract injective or fresh values.
- Which sign-ins succeed, inside `Impersonation`: any open account may get a token of its own at any time there, which covers every case.
- Schema validation (trimmed names, address syntax, password length), feature gates on routers, display names of roles' features.
- Rate limiting, headers, metrics, logging, mail sending and templates, migrations, settings, locale, scheduler timing and advisory locks.
- Login timing.
