# Fleet tenancy, modelled and proved

fleet-tenancy-api is the service that decides which customer tenant may see
and operate which vehicle: it queues vehicle shares and revocations, signs them
for shared accounts, keeps the vehicle roster, sells memberships, assigns
entitlements, publishes group documents and invites people. This project models
the parts of it that keep state over time and proves what they promise over
every input, every interleaving and every history.

- **Sharing queue** (`Calendar`, `Sacd`, `VehicleChain`, `Jobs`, `JobEndings`,
  `Queue`, `QueueTheorems`). Share, revoke and typed-operation jobs as small-step
  programs over a chain model, run by up to four workers behind the vehicle
  sequencer, with crashes, timeouts and the stuck-job rescue. The main results:
  every interleaving equals the serial run in job-id order; at most one job of a
  vehicle is inside its work; no share erases a document; queued jobs drain.
- **Signer cache** (`SignerCache`, `SignerWarming`). The display gate and the
  warm-up, judged against asking accounts-api live, under any interleaving of
  concurrent lookups.
- **Roster** (`Sorting`, `Roster`, `RosterHistory`). The reconcile job, and what
  its owner log, owner column and `unseen_since` mean over any history of runs.
- **Memberships and entitlements** (`Memberships`, `Entitlements`). Two table
  state machines, the month arithmetic behind expiry, and concurrent assign
  batches.
- **Group publisher** (`GroupPublisher`). Plan, execute, record: conserved
  counters, convergence, and when an empty plan means the wire is current.
- **Invitations and backfill** (`Invitations`, `Backfill`). The single-use
  accept with its monotone merge, and the two merges that must not depend on
  reading order.
- **Scope** (`Scope`). Three separately written queries, one rule.

`Lists` and `Wrappers` hold what the modules share.

Code that updates rows or fields in place is a class whose methods are proved
against a function of the old state; theorems over histories are then about
that function. Everything read from outside (authorizer, bundler, identity-api,
accounts-api, clocks, generated ids and tokens) is an input.

## What is assumed

- Jobs get their ids, and become visible, in one order. A worker returns by its
  `Timeout`; a context cancelled at the timeout ends the job.
- Only this queue's jobs move a vehicle or write its records: an owner acting
  outside the service is not in the chain model.
- A UserOp lands inside its own job or never; a worker may be lost, or run out
  of time, after it landed. The worker itself says an
  operation without a receipt may land later (internal/sharing/worker.go:230-236);
  the theorems do not cover that case.
- Only the NFT's owner kernel can write the vehicle's records; a receipt means
  the call landed. A missing owner-mode client and every other send error are
  one outcome, a refused call.
- River's available, pending, retryable and scheduled states are one state; the
  ten-second snooze delay is not timed.
- accounts-api never withdraws a registered signer, and rows of
  `shared_accounts` are stamped in the order they are written.
- Each membership, invitation and per-vehicle entitlement statement is atomic;
  entitlement inserts are visible to other batches as they happen. Ids and
  tokens that Postgres or the service generates are new.
- Over a history of publisher runs each tenant's events are signed with the same
  licence.
- SHA-256 is injective; addresses, emails and group documents are compared in
  canonical form. Timestamps are UTC.

## Where the code and its comments part

- "In the order they were queued" (internal/sharing/sequence.go:20-38) holds for
  the work, not for finishing: a job whose worker is lost at the gate is
  discarded by the rescue while an earlier job still waits. `OvertakingStep`
  says exactly which step does it, `OvertakingHappens` gives the run, and
  `FinishInOrder` proves the order for every run that loses no worker at the
  gate.
- A share's `durationDays` is multiplied into a 64-bit nanosecond count. Above
  106751 days it wraps and the share lasts some other time:
  `ShareLastsAsAskedIff`.
- "The next run republishes the same content"
  (internal/service/group_publisher.go:301-302) fails when the groups go back to
  what was recorded: `UnrecordedEventIsForgotten`. For a vehicle left out of the
  plan, what its tenant last sent is current exactly when its last accepted
  event was recorded: `UnplannedIsCurrentIff`.
- An event names the licence and the vehicle, not the tenant
  (internal/service/group_publisher.go:263-281). Two tenants of one licence that
  group the same vehicle write one stream: both documents are recorded, nothing
  is planned, and only the later one shows: `TwoTenantsOneStream`.
  `StreamIsCurrentIff` says when a stream is current, `SolePublisherIsCurrentIff`
  for a vehicle that no other tenant of the licence publishes.
- The upsert of a roster row and its owner-log entry are two statements. A run
  that stops between them breaks the log exactly when there was an entry to
  write: `InterruptedUpsert`.
- "An infrastructure failure is fatal to the whole call"
  (internal/service/shared_signer.go:146): only the first lookup to fail
  decides. A failure that arrives after another lookup ran out of time comes
  back as unresolved owners and no error, as `FailureBehindTheBudget` shows on
  two lookups. A failed lookup is fatal exactly when no lookup ran out of time
  before the first of them: `FailureCountsIff`, with the error conditions of
  `FilterSignable`, `Check` and `Warm` stated as equivalences.
- A transfer acts on the owner the authorizer names. Told that the target owns a
  vehicle that is another's, it reports success and moves nothing:
  `MisledTransferMovesNothing`. A transfer that reports success ends with the
  vehicle in the target's hands exactly when the authorizer named its owner:
  `TransferEndsAtTargetIff`.
- Adding months is monotone by date, not by second: `AddMonthsMonotone`,
  `AddMonthsNotMonotoneBySecond`, `AddMonthsMonotoneBySecondIff`.
- When two source rows of a group are its latest and carry different metadata,
  the first one read wins: `FirstLatestWins`, `TiesFollowReadingOrder`. The
  merge is independent of reading order exactly when there is no such pair:
  `GroupMergeIsOrderFreeIff`.
- In the membership merge the email address and a plain member's role label
  follow reading order too: `EmailIsOrderFreeIff`, `RoleLabelIsOrderFreeIff`.

## Model

| member | source | states |
|---|---|---|
| `QueueTheorems.Serializability` | internal/sharing/sequence.go:20-96 | in every reachable state of every interleaving, workers lost after their call landed included, each vehicle's owner, version and records equal the serial run of its jobs in id order with the same outside answers, and each returned job returned what it returns there |
| `QueueTheorems.RevokeIsFinal` | internal/sharing/revoke.go:103-159 | a successful revoke with nothing of its vehicle started after it leaves the grantee no live grant and no permission, at any time, however earlier shares interleaved |
| `QueueTheorems.Exclusion` | internal/sharing/sequence.go:54-96 | crashes, timeouts and rescues included, also after a call landed: two workers inside are about different vehicles, no job's work starts twice, started work follows only finished jobs of its vehicle, at most four workers |
| `QueueTheorems.OvertakingStep` | internal/sharing/queue.go:36-42 | the one step after which a finished job stands before an unfinished earlier one of its vehicle: the rescue of that job, not yet started, while an earlier one is unfinished |
| `QueueTheorems.FinishOrder` | internal/sharing/sequence.go:33-38 | in a reachable state a job that finished before an earlier one was discarded without starting, took no answer and moved nothing |
| `QueueTheorems.OvertakingHappens` | internal/sharing/queue.go:36-42 | a concrete run, for any two jobs of one vehicle, in which the later one finishes first |
| `QueueTheorems.FinishInOrder` | internal/sharing/sequence.go:75-96 | in every run that loses no worker at the gate, jobs of a vehicle finish in id order |
| `QueueTheorems.ShareNeverErasesDocument` | internal/sharing/worker.go:300-334 | no step but another kind of job's, in any reachable state, turns a live grant with a document into one without, for any grantee of any vehicle; a share lost or timed out after its call landed included |
| `QueueTheorems.GateLetsInIff` | internal/sharing/sequence.go:75-96 | a job passes the gate exactly when it is known that no earlier job of its vehicle is unfinished; held, it is queued again, the attempt not counted |
| `QueueTheorems.PassFinishesLowest` | internal/sharing/sequence.go:33-38 | a pass that offers every unfinished job one attempt finishes the lowest of every vehicle |
| `QueueTheorems.PassShrinksBacklog` | internal/sharing/sequence.go:33-38 | a pass strictly shrinks every non-empty backlog and grows none |
| `QueueTheorems.PassesDrain` | internal/sharing/sequence.go:33-38 | k passes finish at least k of a vehicle's queued jobs, whatever is enqueued meanwhile; as many passes as jobs finish all |
| `QueueTheorems.NoDeadlock` | internal/sharing/sequence.go:35-38 | from rest, the lowest unfinished job of a vehicle can always be brought to an end |
| `Queue.ReachableInv` | internal/sharing/sequence.go:75-96 | the inductive invariant of every run from an idle queue over any chain |
| `Queue.StepKeeps` | internal/sharing/sequence.go:75-96 | every enqueue, fetch, gate, inner, timeout, crash, rescue and clock step keeps that invariant, a timeout or crash before an answer or just after it took effect |
| `Queue.RescuedWorkerIsGone` | internal/sharing/queue.go:36-42 | every timeout is below the rescue age, so a rescued row has no worker left |
| `Queue.TimeoutsFit` | internal/sharing/shared_ops.go:190-203 | every timeout leaves five minutes beside its receipt windows and five before the rescue |
| `Queue.InsideIsExclusive` | internal/sharing/sequence.go:75-96 | two workers inside are never about one vehicle |
| `Queue.InnerExtendsSerial` | internal/sharing/worker.go:170-244 | a worker's step is the serial run of its own job taking the same answer |
| `Jobs.ValidateIsTheEnum` | internal/sharing/shared_ops.go:110-146 | `Validate` admits exactly the encodings of the four typed operations, each of one operation |
| `Jobs.JobsAreShort` | internal/sharing/shared_ops.go:208-325 | every job ends after at most five outside answers |
| `JobEndings.ShareEndsAs` | internal/sharing/worker.go:170-334 | for every sequence of answers a share can receive, it ends exactly when and as those answers say, and leaves the vehicle they say |
| `JobEndings.RevokeEndsAs` | internal/sharing/revoke.go:103-159 | so does a revoke |
| `JobEndings.SingleOpEndsAs` | internal/sharing/shared_ops.go:208-341 | so do grant_sacd and the two burns |
| `JobEndings.TransferEndsAs` | internal/sharing/shared_ops.go:279-325 | so does a transfer, leg by leg |
| `JobEndings.ShareSucceedsIff` | internal/sharing/worker.go:170-244 | a share succeeds exactly for an address the grantee, a true owner named and a confirmed call; it then leaves the default mask, the expiration from the first answer's clock and the published source or none, and nothing else changed |
| `JobEndings.RefusedOverLiveGrantIff` | internal/sharing/worker.go:314-333 | after a failed publish and a good read, refused exactly when the current grant is live at the judging clock |
| `JobEndings.RevokeSucceedsIff` | internal/sharing/revoke.go:103-159 | a revoke succeeds exactly for an address the grantee, a true owner named and a confirmed call; it then leaves the revoked record and nothing else changed |
| `JobEndings.SingleOpSucceedsIff` | internal/sharing/shared_ops.go:208-261 | grant_sacd and the burns succeed exactly when in order, authorized outside owner mode and confirmed |
| `JobEndings.OwnerModeIsRefused` | internal/sharing/shared_ops.go:232-242 | any typed operation on an AA-wallet-owned vehicle is refused and moves nothing |
| `Jobs.ShareLeavesItsGrant` | internal/sharing/worker.go:170-244 | a share that reports success has left the default mask, an expiration counted from authorization, and the document it published or, after a failed publish, none |
| `Jobs.RevokeLeavesNoGrant` | internal/sharing/revoke.go:103-159 | a successful revoke leaves the zero mask, zero expiration and no source |
| `Jobs.OperationsDoWhatTheySay` | internal/sharing/shared_ops.go:244-341 | a successful grant_sacd leaves the full indefinite grant to the tenant's client id; a successful burn leaves the device or the vehicle burned |
| `Jobs.TransferLeavesOldGrantsBehind` | internal/sharing/shared_ops.go:279-325 | a successful transfer moved the vehicle, or was told the target owns it and did not touch it, and then gave the tenant's client the full indefinite grant or nothing; where it moved, no other grantee has a record; if the authorizer named the true owner, the vehicle is the target's and its version moved exactly when it was not so at the start |
| `Jobs.TransferEndsAtTargetIff` | internal/sharing/shared_ops.go:279-325 | a successful transfer ends with the vehicle in the target's hands exactly when the authorizer named its owner |
| `Jobs.MisledTransferMovesNothing` | internal/sharing/shared_ops.go:284-310 | told that the target owns a vehicle that is another's, the job succeeds and moves nothing |
| `Jobs.ReplayKeepsTidy` | internal/sharing/grant.go:28-31 | no job leaves a record at a version the token has not reached |
| `Jobs.UndeliveredChangesNothing` | internal/sharing/worker.go:290-296 | a job none of whose calls was delivered leaves the vehicle as it was |
| `Jobs.SharesTouchOneRecord` | internal/sharing/worker.go:282-283 | a share or revoke writes one grantee's record at the current version and nothing else |
| `Sacd.Permissions` | internal/sharing/permissions.go:38-44 | for any list, field p of the mask is 3 if p is listed and 0 otherwise |
| `Sacd.PackingIsOrderFree` | internal/sharing/permissions.go:27-37 | lists with the same elements pack into the same mask |
| `Sacd.NamedMasks` | internal/sharing/permissions.go:62-94 | the full mask is 0xFFFF<<2 and packs all eight, the default one packs seven, the empty one none |
| `Sacd.DocumentPrivileges` | internal/sharing/sacd_document.go:126-142 | the document names exactly the privileges of the listed permissions that have a name |
| `Sacd.DocumentMatchesMask` | internal/sharing/permissions.go:66-79 | mask and document packed from one list agree on every named permission |
| `Sacd.RevokedGrantsNothing` | internal/sharing/permissions.go:96-113 | either half of a revocation alone denies every permission |
| `Sacd.LiveCoversGrants` | internal/sharing/grant.go:59-64 | whatever the contract would grant, `GrantIsLive` sees |
| `Sacd.LiveMeansSomethingToLose` | internal/sharing/grant.go:51-64 | a record is live exactly when, unexpired, some field of its mask is not zero or it has a source |
| `Sacd.ExpirationIs` | internal/sharing/permissions.go:115-130 | the last whole second not after now plus the duration; forty calendar years without one |
| `Sacd.ExpirationIsInTheFutureIff` | internal/sharing/permissions.go:125-130 | an expiration lies in a later second than now exactly for no duration or one that reaches the next second |
| `Sacd.ShareLastsAsAskedIff` | internal/sharing/worker.go:199 | a share of d days lasts d days exactly when d is at most 106751 |
| `Calendar.AddMonthsIncreases` | internal/service/memberships.go:206-213 | adding a month or more moves strictly forward |
| `Calendar.AddMonthsMonotone` | internal/service/memberships.go:339-346 | by date, a later start never expires earlier |
| `Calendar.AddMonthsNotMonotoneBySecond` | internal/service/memberships.go:339-346 | by second it can |
| `Calendar.AddMonthsMonotoneBySecondIff` | internal/service/memberships.go:339-346 | exactly when the second-level order survives |
| `Calendar.RenewalChainBound` | internal/service/memberships.go:339-346 | term by term ends in the month of the summed term, never later, at most three days earlier |
| `Calendar.RenewalChainBoundIsTight` | internal/service/memberships.go:339-346 | the three days are reached |
| `Calendar.DayNumberOrdersDates` | internal/service/memberships.go:196-213 | day numbers order dates as (month, day) pairs do |
| `Calendar.AddMonthsIs` | internal/service/memberships.go:196-213 | that many months on, same time of day, on the latest day no later in the month |
| `Calendar.AddYearsRollingIs` | internal/sharing/permissions.go:125-128 | years added by the calendar, a missing day counted on |
| `Calendar.DaysOfYears` | internal/service/memberships.go:196-213 | 365 days a year and one for each leap year |
| `Calendar.EpochIsZero` | internal/sharing/permissions.go:127 | Unix time starts with 1 January 1970 |
| `SignerCache.SharedSignerService.FilterSignable` | internal/service/shared_signer.go:150-257 | each owner returned, once, is the AA wallet or has the tenant's signer live; each listed owner with it live is returned, unresolved, or behind a negative under 24 hours old; unresolved are exactly the owners that needed asking and got no answer; every answer recorded stays in the table; the call fails exactly on a credential error, or when an owner needs the table and it cannot be read, or needs asking and the batch fails |
| `SignerCache.SharedSignerService.AskSigner` | internal/service/shared_signer.go:204-256 | the same for the owners that need a lookup, with the table it leaves and the error named |
| `SignerCache.SharedSignerService.Check` | internal/service/shared_signer.go:498-507 | yes only to the AA wallet or a live signer; no to a live one only behind a fresh negative or an unanswered lookup; the table it leaves; an error exactly when the lookup for it fails |
| `SignerCache.SharedSignerService.ResolveMany` | internal/service/shared_signer.go:276-343 | the table holds every answer recorded, whatever the batch's end; the batch fails exactly when the first lookup to fail did not run out of time, or nothing was minted; otherwise it returns exactly the answers |
| `SignerCache.FirstFailureIs` | internal/service/shared_signer.go:326-335 | the error that decides is the failure no other precedes |
| `SignerCache.FailureCountsIff` | internal/service/shared_signer.go:336-342 | among failures of which one is real, the batch fails exactly when a real one precedes every lookup that ran out of time |
| `SignerCache.FailureBehindTheBudget` | internal/service/shared_signer.go:220-245 | one lookup out of time, then one refused: both owners unresolved and no error; in the other order an error |
| `SignerCache.SharedSignerService.Record` | internal/service/shared_accounts.go:97-122 | the upsert that keeps a stored signer when the new answer has none, stamps the row now and touches no other |
| `SignerCache.AnswersAge` | internal/service/shared_accounts.go:34-41 | a stored signer answers for ever, a stored none for less than a day |
| `SignerCache.WritesAre` | internal/service/shared_signer.go:303-308 | a batch writes exactly the answers that arrived and were stored |
| `SignerCache.SharedSignerService.ColdOwners` | internal/service/shared_signer.go:388-418 | the distinct owners with no fresh answer, in first-seen order, or an error exactly when there is an owner and the table cannot be read |
| `SignerCache.SharedSignerService.Warm` | internal/service/shared_signer.go:448-478 | positives and negatives count the owners answered each way, and with failures add up to the cold ones; exactly when it returns an error; what is recorded either way |
| `SignerCache.InterleavingKeepsSound` | internal/service/shared_accounts.go:92-96 | any interleaving of honest writes leaves only live signers stored |
| `SignerCache.PositivesSurvive` | internal/service/shared_accounts.go:92-96 | a signer is stored exactly when it was before or some write brought one, in any order |
| `SignerCache.NamedIsTheSet` | internal/service/shared_signer.go:173-192 | deduplication keeps each address once, loses none and skips what is not one |
| `SignerCache.ColdElements` | internal/service/shared_signer.go:409-417 | the cold owners are exactly the listed ones without a fresh answer |
| `SignerWarming.ColdIsIdempotent` | cmd/fleet-tenancy-api/warm_shared_accounts.go:119-132 | the cold owners of the cold owners are the cold owners |
| `SignerWarming.WarmFleet` | cmd/fleet-tenancy-api/warm_shared_accounts.go:119-146 | the command asks about the first N cold owners, all without a positive limit; a dry run writes nothing; with every answer stored it is a successful run |
| `SignerWarming.RecordedBatchSucceeded` | internal/service/shared_signer.go:267-275 | a batch whose every lookup was answered and stored is a successful run without a failure |
| `SignerWarming.WarmAsksTheBatch` | cmd/fleet-tenancy-api/warm_shared_accounts.go:119-146 | handed the truncated cold set later, `Warm` finds exactly that set to ask about |
| `SignerWarming.WarmRunShrinks` | cmd/fleet-tenancy-api/warm_shared_accounts.go:119-146 | a successful run removes exactly the first N cold owners, or all without a limit |
| `SignerWarming.WarmingConverges` | cmd/fleet-tenancy-api/warm_shared_accounts.go:119-146 | within a freshness window successful runs ask each cold owner once, in order, and leave none cold exactly when runs times N reaches their number; one run without a limit does |
| `Roster.RosterService.Reconcile` | internal/service/roster.go:82-181 | the report is a function of roster and readings, the same dry or real; a real run writes exactly the reconciled rows and log entries, a dry one nothing |
| `Roster.SweptIsTheUnion` | internal/service/roster.go:98-115 | the sweep holds exactly the vehicles some answering licence returned |
| `Roster.SweptKeepsTheLast` | internal/service/roster.go:98-115 | of a vehicle returned more than once, the last reading in order |
| `Roster.FailuresAreCounted` | internal/service/roster.go:102-111 | the failed licences are counted, and a sweep is complete exactly when there is none |
| `Roster.SeenAre` | internal/service/roster.go:116-128 | a run sees what licences returned and, of the rest, the entitled vehicles identity-api answers for |
| `Roster.RosterService.ApplyAll` | internal/service/roster.go:141-167 | inserted, updated and changed vehicles counted and written in token order |
| `Roster.RosterService.FillEntitledGaps` | internal/service/roster.go:189-228 | the sweep plus every entitled vehicle identity-api answers for |
| `Roster.RosterService.Upsert` | internal/service/roster.go:289-337 | one row filled forward, its stamp cleared, and a log entry exactly when the owner was learned or changed |
| `Roster.RosterService.MarkUnseen` | internal/service/roster.go:346-368 | unstamped rows outside the run's set are stamped and counted, stamped ones keep their time |
| `Roster.CountsSplit` | internal/service/roster.go:142-159 | the counters are the numbers of new and known vehicles |
| `RosterHistory.OwnerLogReplays` | internal/service/roster.go:289-337 | after any history the owner column is the last entry's new owner, entries chain, consecutive owners differ |
| `RosterHistory.AdditionsAreReported` | internal/service/roster.go:141-167 | a run's log additions are exactly its reported owner changes and its new rows with an owner |
| `RosterHistory.OwnerChangesAreTheDifferences` | internal/service/roster.go:152-156 | the reported owner changes are exactly the known vehicles read with another, non-empty owner |
| `RosterHistory.InterruptedUpsert` | internal/service/roster.go:319-336 | stopping between row and log entry keeps the log replaying exactly when nothing was to be logged |
| `RosterHistory.UnseenSinceIsFirstMiss` | internal/service/roster.go:339-368 | after any history `unseen_since` is the time of the first complete run after the vehicle was last seen, NULL if none |
| `RosterHistory.StampsAfterRun` | internal/service/roster.go:169-178 | after a complete run exactly the vehicles it saw are unstamped; a partial run only clears |
| `RosterHistory.ColumnsOverHistory` | internal/service/roster.go:289-317 | definition filled forward, device overwritten, first and last sighting times, over any history |
| `Sorting.SortedElements` | internal/service/roster.go:130-134 | the sorted token list has exactly the set's elements, ascending, each once |
| `Sorting.Sort` | internal/service/roster.go:130-134 | sorting the keys of the set |
| `Memberships.MembershipService.Create` | internal/service/memberships.go:165-238 | the row bought, live, from its start to its start plus the term, a lapsed one superseded; or the first applicable refusal and no change; the invariant kept |
| `Memberships.MembershipService.Move` | internal/service/memberships.go:246-317 | the vehicle changed and the move logged, or a refusal; the invariant kept |
| `Memberships.MembershipService.Renew` | internal/service/memberships.go:330-364 | the term added to the expiry, or to now once that has passed, and nothing else changed; or a refusal; the invariant kept |
| `Memberships.MembershipService.Cancel` | internal/service/memberships.go:372-395 | the live row canceled, or a refusal; the invariant kept |
| `Memberships.MembershipService.SupersedeOrRefuse` | internal/service/memberships.go:481-505 | clear exactly when no unexpired live row covers the vehicle; then every live row of it is canceled |
| `Memberships.GrantedIff` | internal/service/memberships.go:165-395 | exactly when each of the four requests is granted |
| `Memberships.RefusalIsTrue` | internal/service/memberships.go:165-395 | each refusal names something that stood in the way |
| `Memberships.GrantedDoes` | internal/service/memberships.go:206-395 | what each granted request writes, row by row |
| `Memberships.StatusIs` | internal/service/memberships.go:55-66 | the four statuses by cancellation, expiry and thirty days |
| `Memberships.ApplyKeepsOneLive` | internal/db/migrations/20260813160000_vehicle_memberships.sql:44-45 | every request keeps at most one uncanceled row per tenant and vehicle |
| `Memberships.ApplyKeepsTrails` | internal/service/memberships.go:280-303 | every request keeps each move log a chain from creation vehicle to current vehicle |
| `Memberships.HistoryKeepsValid` | internal/service/memberships.go:165-395 | both, after any history |
| `Memberships.RequestEffect` | internal/service/memberships.go:165-395 | no request moves an expiry back, only a renewal moves it, only its own move changes a vehicle, an unexpired row ends only by its own cancel, a canceled one never changes |
| `Memberships.ExpiryNeverDecreases` | internal/service/memberships.go:330-364 | the same over any history |
| `Memberships.EarlyRenewalsAddTerms` | internal/service/memberships.go:339-346 | from any position of a history on, early renewals of a membership add their terms to its expiry one by one, whatever other requests lie between |
| `Memberships.EarlyRenewalsBound` | internal/service/memberships.go:339-346 | so its expiry is in the month of one purchase of the sum, never later, at most three days earlier |
| `Memberships.ReadsAgree` | internal/service/memberships.go:407-439 | a token is active exactly when the listing shows one membership of it active or expiring soon |
| `Memberships.PurchaseIsVisible` | internal/service/memberships.go:165-364 | what a create, renew or move makes the gate say about the vehicle |
| `Memberships.SlotIsFreed` | internal/service/memberships.go:246-395 | a cancel or move leaves nothing that would refuse the vehicle's next purchase |
| `Entitlements.EntitlementService.Assign` | internal/service/entitlements.go:93-207 | with any other transactions between its vehicles: refused or the input split in order into granted and rejected as each step decided, one holder per vehicle kept |
| `Entitlements.EntitlementService.RevokeOne` | internal/service/entitlements.go:215-233 | the tenant no longer holds the vehicle, every other row is as it was, and it reports whether there was one in force |
| `Entitlements.RevokedStaysFree` | internal/service/entitlements.go:209-214 | over any run a revoked vehicle that no later step grants is held by nobody at the end |
| `Entitlements.UnheldUntilGranted` | internal/service/entitlements.go:93-233 | a tenant comes to hold a vehicle only by a step that grants it |
| `Entitlements.EntitlementService.InsertOne` | internal/db/migrations/20260812230000_entitlement_exclusivity.sql:32-33 | refused exactly when another tenant holds the vehicle; otherwise held, no other row touched |
| `Entitlements.GrantedIff` | internal/service/entitlements.go:134-192 | a step grants a vehicle exactly when the read found no conflict and nobody else holds it, so again to its own holder |
| `Entitlements.Exclusivity` | internal/service/entitlements.go:93-233 | in every interleaving of batches and revokes, at most one active holder per vehicle and every batch split so far |
| `Entitlements.FinishedBatchConserves` | internal/service/entitlements.go:133-193 | a finished batch gave every input vehicle, duplicates included, exactly one verdict, in order |
| `Entitlements.SplitsConserve` | internal/service/entitlements.go:133-193 | a split loses and adds nothing |
| `Entitlements.RejectionIsJustified` | internal/service/entitlements.go:134-193 | a vehicle is rejected exactly when someone held it at the read or the step, and no step touches another row |
| `Entitlements.AssignedStaysHeld` | internal/service/entitlements.go:144-193 | what a step granted is held at the end of any run unless revoked after that step: no rejection undoes it |
| `Entitlements.GrantedAtSomeStep` | internal/service/entitlements.go:189-192 | every vehicle in a granted list got there at such a step |
| `Entitlements.ConflictsAre` | internal/service/entitlements.go:241-276 | the read finds exactly the asked-for vehicles held by another explicit-mode tenant of the same operator |
| `Entitlements.ConflictIsHeld` | internal/service/entitlements.go:241-276 | a conflict found by the read is another tenant's row in force |
| `GroupPublisher.Publisher.PlanPublishes` | internal/service/group_publisher.go:203-252 | the plan is the vehicles whose recorded digest is not the current document's; checked is planned plus unchanged |
| `GroupPublisher.Publisher.PublishOne` | internal/service/group_publisher.go:257-309 | an accepted event becomes the last of its licence's stream for the vehicle; the record is written only after that |
| `GroupPublisher.Publisher.Run` | internal/service/group_publisher.go:124-195 | checked, unchanged, planned, skipped tenants and every outcome counter are the numbers of vehicles and tenants concerned, the accounting balances, on each stream the highest tenant id writes last, and a dry run changes nothing |
| `GroupPublisher.CheckedAre` | internal/service/group_publisher.go:203-230 | compared are exactly the vehicles in scope that have groups or were published |
| `GroupPublisher.InPlan` | internal/service/group_publisher.go:197-249 | planned are exactly those in scope whose record is not of the current document |
| `GroupPublisher.AccountsBalance` | internal/service/group_publisher.go:100-105 | every planned vehicle has exactly one outcome |
| `GroupPublisher.RunConverges` | internal/service/group_publisher.go:203-252 | after a run, for one tenant or for all, exactly the vehicles it did not store are planned again |
| `GroupPublisher.RetractionPlannedOnce` | internal/service/group_publisher.go:200-229 | after a stored retraction no later run of the history plans the vehicle while it has no groups |
| `GroupPublisher.AgreementKeptIff` | internal/service/group_publisher.go:254-304 | a run, for one tenant or for all, keeps the record in agreement with what was sent exactly when every planned event that was accepted was recorded |
| `GroupPublisher.AgreementIff` | internal/service/group_publisher.go:254-304 | after any history of runs, whatever their filters, record and sent document of a vehicle agree exactly when its last accepted event was recorded, or it had none |
| `GroupPublisher.UnplannedIsCurrentIff` | internal/service/group_publisher.go:203-304 | for a vehicle outside the plan, what its tenant last sent is current exactly then |
| `GroupPublisher.HistoryAgrees` | internal/service/group_publisher.go:124-304 | they agree everywhere if every accepted event was recorded |
| `GroupPublisher.EmptyPlanMeansSentIsCurrent` | internal/service/group_publisher.go:124-304 | and then a plan is empty exactly when every tenant last sent the current document of every vehicle in scope |
| `GroupPublisher.StreamIsCurrentIff` | internal/service/group_publisher.go:263-281 | when the stream of a vehicle outside the plan shows its current document, by who wrote to it last |
| `GroupPublisher.SolePublisherIsCurrentIff` | internal/service/group_publisher.go:263-281 | without another publisher on the stream, exactly when the last accepted event was recorded, or there was none |
| `GroupPublisher.TwoTenantsOneStream` | internal/service/group_publisher.go:163-193 | two tenants of one licence: all recorded, nothing planned, only the later document on the stream |
| `GroupPublisher.EmptyPlanMeansWireIsCurrent` | internal/service/group_publisher.go:124-304 | if every accepted event was recorded and no compared vehicle shares its stream, a plan is empty exactly when every compared vehicle's stream shows its current document |
| `GroupPublisher.UnrecordedEventIsForgotten` | internal/service/group_publisher.go:300-304 | an event accepted and not recorded: an empty plan over a stream holding another document |
| `Invitations.InvitationService.Create` | internal/service/invitations.go:121-208 | earlier pending invites of the address revoked and the new row inserted, or nothing |
| `Invitations.CreateDoes` | internal/service/invitations.go:121-191 | exactly when an invite is created, its row, and which earlier ones it revokes |
| `Invitations.InvitationService.Revoke` | internal/service/invitations.go:237-253 | only a pending row of the tenant is revoked |
| `Invitations.InvitationService.Resend` | internal/service/invitations.go:264-302 | only a pending row gets the new token and expiry |
| `Invitations.RevokeAndResendDo` | internal/service/invitations.go:237-285 | they reach a pending invitation of the asking tenant and no other row |
| `Invitations.InvitationService.Accept` | internal/service/invitations.go:320-406 | accepts exactly when the token names a pending, unexpired invitation the caller may accept |
| `Invitations.UnionStrings` | internal/service/invitations.go:700-712 | the elements of both lists in first-seen order, each once |
| `Lists.DistinctIsTheSet` | internal/service/invitations.go:700-712 | that keeps every element once and adds none |
| `Invitations.ScopeRoundTrip` | internal/models/member.go:65-80 | encode then decode is the identity, only null is unrestricted, empty stays empty, nothing else decodes |
| `Invitations.HistoryKeepsUnique` | internal/service/invitations.go:121-302 | tokens stay unique over any history |
| `Invitations.HistoryKeepsWell` | internal/service/invitations.go:121-208 | over any sequential history one pending invite per address, and owner invites unrestricted |
| `Invitations.StatusOnlyLeavesPending` | internal/service/invitations.go:237-406 | no request changes an invitation that has left pending |
| `Invitations.SettledForever` | internal/service/invitations.go:237-406 | so it stays as it is over any history |
| `Invitations.AcceptedAtMostOnce` | internal/service/invitations.go:320-406 | no history accepts an invitation twice |
| `Invitations.RowHoldsLastMinted` | internal/service/invitations.go:264-302 | a row holds the token and expiry last minted for it |
| `Invitations.AcceptNeedsLastToken` | internal/service/invitations.go:333-357 | an accept needs the last minted token, no later than its expiry cut to the second |
| `Invitations.AcceptIff` | internal/service/invitations.go:320-357 | exactly when an accept goes through, in terms of the history |
| `Invitations.RevokedNeverAccepted` | internal/service/invitations.go:161-253 | an invitation revoked, or replaced by a newer one for the address, is never accepted |
| `Invitations.RolesAre` | internal/service/invitations.go:92-112 | what an owner's invite gives, and the order of the roles |
| `Invitations.TruncatedIs` | internal/service/invitations.go:352 | expiry is cut to the second |
| `Invitations.AcceptMerges` | internal/service/invitations.go:359-406 | the membership has exactly the old permissions and the role's, the higher rank, the invite's scope; no other membership changes |
| `Backfill.MemberAccess.MergeRow` | cmd/fleet-tenancy-api/backfill.go:457-486 | one source row folded in place |
| `Backfill.FoldMergesAll` | cmd/fleet-tenancy-api/backfill.go:451-486 | the fold is union, union, or, maximum rank and latest login of its rows |
| `Backfill.MemberMergeIsOrderFree` | cmd/fleet-tenancy-api/backfill.go:422-427 | any order and repetition gives the same permissions, scope, last login and rank |
| `Backfill.EmailIsOrderFreeIff` | cmd/fleet-tenancy-api/backfill.go:480-482 | the address is the same in every order exactly when no two rows carry different ones |
| `Backfill.FirstEmailWins` | cmd/fleet-tenancy-api/backfill.go:480-482 | it is the first one read |
| `Backfill.RoleLabelIsOrderFreeIff` | cmd/fleet-tenancy-api/backfill.go:459-464 | the label is the same in every order exactly when some row is an owner's or admin's or no two rows carry different ones |
| `Backfill.FirstBestRoleWins` | cmd/fleet-tenancy-api/backfill.go:459-464 | it is the first one read of the highest rank |
| `Backfill.HighestLabelWins` | cmd/fleet-tenancy-api/backfill.go:437-464 | an owner's row makes the label owner, failing that an admin's makes it admin |
| `Backfill.MergeNeverRemoves` | cmd/fleet-tenancy-api/backfill.go:453-456 | never less access than any one row |
| `Backfill.ScopeIs` | cmd/fleet-tenancy-api/backfill.go:500-513 | unrestricted exactly when some row is, otherwise exactly the rows' groups |
| `Backfill.MergeGroups` | cmd/fleet-tenancy-api/backfill_groups.go:125-146 | refuses exactly on tenant disagreement; else the fold of the rows: earliest creation, latest update, the metadata of a latest row, the source count |
| `Backfill.FirstLatestWins` | cmd/fleet-tenancy-api/backfill_groups.go:138-140 | that row is the first one read among the latest |
| `Backfill.GroupMergeIsOrderFreeIff` | cmd/fleet-tenancy-api/backfill_groups.go:119-146 | undisputed rows merge alike in every order exactly when the latest rows of each id carry the same metadata |
| `Backfill.DisagreementIsOrderFree` | cmd/fleet-tenancy-api/backfill_groups.go:133-136 | every order refuses the same rows |
| `Backfill.TiesFollowReadingOrder` | cmd/fleet-tenancy-api/backfill_groups.go:138-140 | two tied rows merge into different groups in the two orders |
| `Backfill.MergeMemberships` | cmd/fleet-tenancy-api/backfill_groups.go:177-195 | refuses exactly an unknown or mismatched group; else the union with earliest creation |
| `Backfill.UnionIsOrderFree` | cmd/fleet-tenancy-api/backfill_groups.go:171-195 | the set of rows determines the result |
| `Backfill.CheckNameCollisions` | cmd/fleet-tenancy-api/backfill_groups.go:152-169 | refuses exactly when two ids of a tenant share a name |
| `Backfill.NameKeyIsInjective` | cmd/fleet-tenancy-api/backfill_groups.go:161 | the composite key is the pair |
| `Scope.ScopeIsEffectiveCredential` | internal/service/scope.go:36-69 | for a caller with a licence, access holds exactly when the subject's effective credential is the caller's or a delegation exists |
| `Scope.RulesAgreeIff` | internal/service/credentials.go:98-136 | without that hypothesis, exactly when the two rules agree |
| `Scope.EffectiveIs` | internal/service/credentials.go:98-136 | the credential found is the tenant's own, else its parent's; none exactly when neither has one; an unknown tenant is reported as such |
| `Scope.RowInScopeIsTheCheck` | internal/service/wallet_tenants.go:60-71 | the listing's row filter is the scope check |
| `Scope.ListTenantsForWallet` | internal/service/wallet_tenants.go:30-71 | lists exactly the wallet's memberships that the scope check admits: on the fleet-lite surface the active and enabled ones, on the operator surface the operators; the three refusals |

## Left out

- HTTP controllers, middleware, metrics, configuration, route wiring: plumbing.
- Network clients, Postmark, document upload, RPC dialling, calldata packing and all cryptography: only their results appear, as inputs.
- Operations that land after their job ended, owners acting outside the service, and timing of snoozes: see the assumptions.
- A tenant whose effective licence changes between publisher runs.
- `jobTokenID`'s JSON parsing: a job carries its token id; jobs without one do not occur.
- Two vehicles' jobs that share one synthetic device or one kernel nonce: each job is modelled on its own vehicle.
- Moment: whole seconds and years from 0; membership times below the second are not modelled, a share's clock is.
- `Lookup` and `Record` failures of `shared_accounts` other than as one failed read or one dropped write; malformed signer strings.
- GroupPublisher.Publisher.Run: visits tenants in order but a tenant's vehicles in any order, which changes no counter and no final state; loading errors end a run before it starts and are not modelled.
- Scope.ListTenantsForWallet: the set of tenants, not the name order or the other columns.
- Roster columns make, model, year and minted_at follow definition's rule, aftermarket device follows the synthetic one's; VIN and plate are never written by reconcile.
- Runs of reconcile cut short by an error, other than `InterruptedUpsert`; overlapping runs.
- Entitlements.EntitlementService.Assign: an infrastructure error that rolls the whole batch back is not modelled; holder names and grant metadata are not carried.
- Invitations.ScopeRoundTrip: a scope's JSON is its parsed value (absent, null, an array, malformed); the text of the array and its escapes are not modelled.
- Invitations.HistoryKeepsWell: sequential requests only; supersede and insert are two statements, so concurrent creates can leave two pending invites.
- Email delivery tracking, invitation preview and listing: `markEmailSent` has no rank guard, so there is no whole-run order to prove.
- `mapKaufmannCapabilities`, reading and writing of the backfills, tenant CRUD, provisioning, token minting and retry: short linear code.
