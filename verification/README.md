# Verified model of the forge's coordination core

A Dafny model of the parts of the repository whose correctness spans several functions, several
processes or a whole run, with proofs of what they guarantee.

- **Transactional outbox** (`OutboxTable`, `OutboxWorker`, `OutboxDrain`, `OutboxFate`, `OutboxTrail`,
  `OutboxProtocol`, `OutboxGuarantees`, `OutboxReopening`, `OutboxRefinement`, `OutboxWithoutLease`) and the
  **reference webhook receiver** (`Receiver`). The table is changed in place by one method per SQL statement,
  the worker is a class whose methods follow the source statement by statement, and a machine interleaves any number of workers, crashes, lost acknowledgements, a
  reaper and a clock. Each row carries the trail of what happened to it, and status and retry count are
  functions of that trail. Every run of the worker class is matched by a run of the machine: same table, same
  actions of every receiver, and counters that count its acknowledged marks.
- **Tenant membership**: `Membership` (the repository, one call at a time), `TenantService` (its callers),
  `OwnerAuthority` and `MembershipRules` (serial runs), `MembershipProtocol` (interleaved transactions under row locks in Read
  Committed, with arbitrarily stale owner scans), `OwnerLocks` (the wait-for graph), `OwnerSolo` (a call
  running while nobody else holds a row), `OwnerDeadlock` (exactly which calls can deadlock), `MembershipRaces`
  (three concrete runs that end badly).
- **Migration ledger**: `Discover`, `MigrationNames`, `Ledger`, `LedgerRuns` (resume and adopt), `LedgerRace` (concurrent appliers).
- **Limiters**: `FixedWindow`, and its two instances `IPLimiter` and `AllowSampler`.
- **Credentials**: `TenantDomain`, `Tokens`, `Authn`, `Authz`, `Downgrade`.
- **Versioned user events**: `Uuids`, `UserEvents` (one transaction after the other), `UserEventsProtocol` (interleaved),
  `UserDelivery` (from a user's change to the other system).

Code that updates fields or tables in place is a class with methods and loops, each proved against a
function of the state before; the properties are lemmas about those functions. `DbOutcome` says how a
statement or transaction ends for its caller: applied, applied with the answer lost, or not applied.

## What the proofs found

- `MarkDone` and `MarkFailedWithRetry` match a row by id alone. Without the lease assumption `done` is not
  final and a row can be reported dead twice; `OutboxWithoutLease` gives the runs. A done row can still stop
  being done if and only if some worker holds it and may yet come to mark it failed
  (`OutboxReopening.ReopensIff`); a final status stays if and only if no later mark contradicts it
  (`OutboxTrail.FinalIff`). A row is marked dead at most once if and only if its stored retry count never
  passes maxRetries, and the mark that repeats a death is the one that finds it there
  (`OutboxGuarantees.DeadCount`, `OutboxGuarantees.RepeatedDeathIff`).
- An endpoint acts on a redelivered row more than once if and only if its log has forgotten the row by then
  (`OutboxGuarantees.ActsOnceIff`).
- The comment on `lockOwnersOrdered` says concurrent owner changes never deadlock. They can, even when every
  transaction reads the truth, if a member is promoted between two scans
  (`MembershipRaces.DeadlockFromHonestSnapshots`). Which calls can is decided by what each has read, its owner
  scan and then its target, and by which rows exist: any number of calls can come to wait in a circle, under
  any role changes and removals beside them, if and only if positions exist in these lists such that each call
  wants an existing row and, of these calls, exactly the next one in the circle has passed it
  (`OwnerDeadlock.DeadlockIff`; `OwnerDeadlock.HonestDeadlockIff` for runs in which every read is true). Calls
  that agree on each other's targets are safe, the owners-demoting-each-other case. Calls that lock the same
  row first are safe while that row exists (`OwnerDeadlock.SameFirstRowIsSafe`) and may deadlock once it is
  removed (`MembershipRaces.SharedFirstRowGoes`), because a missing row is skipped and no longer keeps them
  apart. The interface comment's "COUNT over a locked subquery" is not what the code does; the model follows
  the code.
- `ErrLastOwner` is never missing where the sequential call would give it, but after a stale scan it can be
  given although another owner exists; `MembershipProtocol.SpuriousRefusalIff` says exactly when.
- An admin can demote an owner who was promoted between the service's check and the repository's lock
  (`MembershipRaces.AdminDemotesAnOwner`); `MembershipProtocol.AdminChangesOwnersIff` says exactly when. With
  calls one after the other it cannot happen, and `ErrLastOwner` is then never answered at all.
- Within any closed interval as long as the window, one key gets at most 2·max − 1 requests through, not
  2·max, and the bound is reached.
- `Adopt` followed by `Up` reaches the complete schema if and only if the database truly held the adopted prefix.
- Delivery and preview tokens come back through the parser if and only if the two keys differ.
- A user registered at a version other than 0 or 1 leaves a gap in the event keys; the service always passes 1.
- Seeded tenants may start without an owner, so last-owner safety reads "once owned, always owned".

## Model

| member | source | states |
|---|---|---|
| OutboxTable.PostgresRepository.EnqueueTx | internal/pkg/outbox/postgres_repository.go:23-30 | the table gains one pending row unless its idempotency key is already there |
| OutboxTable.EnqueueKeepsKeysUnique | internal/pkg/outbox/postgres_repository.go:23-30 | enqueueing keeps keys unique, keeps every row, and leaves the key present |
| OutboxTable.PostgresRepository.ClaimPending | internal/pkg/outbox/postgres_repository.go:32-64 | claims distinct unlocked pending rows, oldest first, up to the limit and all of them if fewer; exactly those become processing with the claim time |
| OutboxTable.PostgresRepository.MarkDone | internal/pkg/outbox/postgres_repository.go:66-73 | the row becomes done whatever its status was |
| OutboxTable.PostgresRepository.MarkFailedWithRetry | internal/pkg/outbox/postgres_repository.go:75-93 | one more retry counted whatever the status was; dead iff the row is now failed; no answer iff no such row |
| OutboxTable.PostgresRepository.ReclaimStale | internal/pkg/outbox/postgres_repository.go:95-107 | exactly the stale processing rows return to pending, and their number is returned |
| OutboxWorker.Worker.constructor | internal/pkg/outbox/worker.go:74-95 | non-positive settings fall back to 10 rows, 5 attempts, 60 seconds; positive ones are kept |
| OutboxWorker.Worker.Run | internal/pkg/outbox/worker.go:102-134 | a run of ticks, each a reclaim followed by a batch, from any table |
| OutboxWorker.Worker.ProcessBatch | internal/pkg/outbox/worker.go:136-177 | table, counters, sends and notices after a batch over an admissible claim, with lost and failed marks |
| OutboxWorker.Worker.Process | internal/pkg/outbox/worker.go:141-175 | one row's delivery, mark, counters and dead-letter notice |
| OutboxWorker.Worker.NotifyDeadLetter | internal/pkg/outbox/worker.go:191-224 | a notice goes out exactly for a content row with a readable tenant when a notifier is wired |
| OutboxWorker.Worker.Deliver | internal/pkg/outbox/worker.go:230-257 | routing by event type, refusals included |
| OutboxWorker.Worker.DeliverContent | internal/pkg/outbox/worker.go:275-293 | sends to endpoints in order and stops at the first failure; success iff every send succeeded |
| OutboxDrain.BatchAccounts | internal/pkg/outbox/worker.go:136-177 | a batch keeps failed = retried + dead, and rows claimed = delivered + failed + done marks whose answer was lost |
| OutboxDrain.RunAccounts | internal/pkg/outbox/worker.go:102-177 | failed = retried + dead throughout every run, under any answers of the database |
| OutboxDrain.NoticeOnlyWhenDead | internal/pkg/outbox/worker.go:150-163 | a dead-letter notice implies the row is failed, the mark was acknowledged and the dead counter moved |
| OutboxDrain.NoticeIff | internal/pkg/outbox/worker.go:150-224 | a notice goes to the tenant exactly when the notifier is wired and the failed attempt was the last, acknowledged, on a content event naming its tenant |
| OutboxDrain.TickProgress | internal/pkg/outbox/worker.go:110-177 | a reliable tick strictly lowers the attempts left over non-terminal rows unless there are none, and the counters equal the table's changes |
| OutboxDrain.Drained | internal/pkg/outbox/worker.go:102-177 | as many reliable ticks as attempts left leave every row done or failed, the counters telling how many of each |
| OutboxFate.UserEventsArrive | internal/pkg/outbox/worker.go:102-257 | a drained user event (created, updated or deleted, naming its user) is done after exactly one upsert, and no webhook hears of it |
| OutboxFate.ContentArrives | internal/pkg/outbox/worker.go:230-293 | a drained content event reached every endpoint of its tenant once, in order, and nobody else |
| OutboxFate.OthersDie | internal/pkg/outbox/worker.go:230-257 | a row of any other kind is never sent anywhere and ends failed with its attempts used up |
| OutboxTrail.ClaimsBoundedExactly | internal/pkg/outbox/postgres_repository.go:32-107 | a row's claims never exceed its failures, plus one while out or done, plus its reclaims; never more than the retry limit plus the reclaims |
| OutboxTrail.MarkUndoesTerminalIff | internal/pkg/outbox/postgres_repository.go:66-93 | a mark changes a final status iff it is a failure mark on done or a done mark on failed |
| OutboxTrail.FinalIff | internal/pkg/outbox/postgres_repository.go:66-93 | a final status stays through the whole trail iff no later mark contradicts it |
| OutboxTrail.DeadMarksExactly | internal/pkg/outbox/postgres_repository.go:75-93 | a row was marked dead once for the failure that reached maxRetries and once more for each failure after it |
| OutboxTrail.GuardedIsFinal | internal/pkg/outbox/postgres_repository.go:66-93 | marking only unfinished rows makes a final status final and reached at most once |
| OutboxProtocol.Reachable | internal/pkg/outbox/worker.go:102-177 | in every interleaving status, retry count and claim time of each row are what its trail says, and each worker's view agrees with it |
| OutboxGuarantees.RetryBound | internal/pkg/outbox/postgres_repository.go:75-107 | with no timing assumption: claims at most maxRetries plus reclaims; unfinished rows have retries left |
| OutboxGuarantees.ExhaustedIsNeverClaimed | internal/pkg/outbox/postgres_repository.go:32-93 | once a row's count reached maxRetries no later step of the run claims it, and its trail shows no later claim |
| OutboxGuarantees.NothingLost | internal/pkg/outbox/postgres_repository.go:23-107 | in every interleaving with crashes enqueued events stay, with their type, payload, key and creation time |
| OutboxGuarantees.FirstComeFirstServed | internal/pkg/outbox/postgres_repository.go:23-64 | in every reachable table a claim passes over a free pending row only when it is full, and only for rows enqueued earlier or at the same instant |
| OutboxGuarantees.ProcessingIsReclaimable | internal/pkg/outbox/postgres_repository.go:95-107 | every processing row has a claim time, and once it is stale the reaper returns it to pending with its retry count |
| OutboxGuarantees.NothingFalselyDone | internal/pkg/outbox/worker.go:141-175 | two claims of a row are separated by a retry or a reclaim; every done mark follows a successful delivery by the same worker |
| OutboxGuarantees.DoneRowWasDelivered | internal/pkg/outbox/worker.go:141-175 | every row whose status is done, of any event type, was delivered with success and then marked by one worker |
| OutboxGuarantees.DeadCount | internal/pkg/outbox/postgres_repository.go:75-93 | in every run the stored retry count tells how often a row was marked dead, at most once iff it never passed maxRetries; reports are those marks less the unheard ones |
| OutboxGuarantees.RepeatedDeathIff | internal/pkg/outbox/worker.go:150-163 | a failure mark repeats a row's death iff it finds the count at maxRetries already |
| OutboxGuarantees.EndToEnd | internal/pkg/outbox/worker.go:275-293 | a content row that is done was delivered and then marked by one worker, and at every successful delivery of it, whatever endpoints it listed, each acted at least once, and exactly once iff that endpoint still remembered it at every redelivery |
| OutboxGuarantees.ActsOnceIff | examples/webhook-consumer/receiver.go:132-177 | over every run an endpoint acts on a delivery at most once iff each repeat of it was handled while among the last `limit` ids accepted there |
| OutboxGuarantees.LeaseTheorem | internal/pkg/outbox/postgres_repository.go:32-107 | if every mark comes before its claim goes stale: no row held twice, done and failed final, at most one terminal mark and one dead report |
| OutboxReopening.ReopensIff | internal/pkg/outbox/postgres_repository.go:66-93 | a done row of any reachable state has a continuation in which it is not done iff some worker holds it and has neither succeeded on it nor heard every answer of its delivery |
| OutboxRefinement.WorkerRefinesProtocol | internal/pkg/outbox/worker.go:102-293 | every run of the worker, under any answers of database and endpoints, is matched by a continuation of the interleaved protocol: same table, same actions of every receiver; delivered and dead grow by the worker's acknowledged done and dead marks, notices by no more than the latter |
| OutboxRefinement.RowOn | internal/pkg/outbox/worker.go:141-175 | the same for one iteration of the batch loop: a delivery step by step and then one mark |
| OutboxRefinement.ReachedIsActed | internal/pkg/outbox/worker.go:275-293 | every request of the worker that reached its endpoint was acted on there, answered or not |
| OutboxRefinement.WorkerKeepsRetryBound | internal/pkg/outbox/worker.go:102-177 | so the worker leaves no unfinished row without retries, on any table the protocol reaches |
| OutboxWithoutLease.DoneIsNotFinal | internal/pkg/outbox/postgres_repository.go:66-93 | a run without the lease in which a done row becomes pending again, for every retry limit above one |
| OutboxWithoutLease.DeadIsReportedTwice | internal/pkg/outbox/postgres_repository.go:75-93 | a run without the lease in which one row is reported dead twice |
| Receiver.DeliveryLog.First | examples/webhook-consumer/receiver.go:164-177 | true iff the id is not among the last `limit` accepted; the bounded set and queue represent exactly those |
| Receiver.RepeatActsIff | examples/webhook-consumer/receiver.go:164-177 | a repeated id acts again iff at least `limit` acceptances followed its every acceptance |
| Receiver.PresentAllSpaced | examples/webhook-consumer/receiver.go:152-177 | over any sequence of deliveries, two actions for one id are more than `limit` acceptances apart, and every id acts |
| Receiver.ActsOnceIff | examples/webhook-consumer/receiver.go:132-177 | over any sequence of deliveries an id acts at most once iff each repeat came while it was remembered |
| Receiver.OnceWhileRemembered | examples/webhook-consumer/receiver.go:132-177 | an id with at most `limit` acceptances since its first acted exactly once |
| Receiver.Handler.ServeHTTP | examples/webhook-consumer/receiver.go:94-145 | which request gets 200, 400, 401, 405 or 500; it acts exactly on a request whose digest is the MAC of the first 65536 bytes of its body, with both headers, an event naming a tenant and an id not remembered, and then on that event |
| Receiver.ForgeriesChangeNothing | examples/webhook-consumer/receiver.go:75-145 | requests that do not prove the secret can be struck from any sequence without changing an action or a remembered id |
| Receiver.SentIsConsideredIff | internal/pkg/outbox/webhook.go:65-91 | what the sender signs the receiver considers, iff body size, headers and payload fit |
| Membership.Repository.LockOwnersOrdered | internal/tenant/repository/postgres_repository.go:460-484 | the loop over the owner rows counts the tenant's owners |
| Membership.Repository.UpdateMemberRole | internal/tenant/repository/postgres_repository.go:345-386 | the very role asked for is stored and nothing else changes; not found iff no such member, last owner iff the only owner would stop being one; a refusal changes nothing |
| Membership.Repository.RemoveMember | internal/tenant/repository/postgres_repository.go:391-426 | exactly that row goes; the same two refusals, which change nothing |
| Membership.ChangeExactly | internal/tenant/repository/postgres_repository.go:345-426 | the same about the specification both are proved against |
| Membership.LastOwnerIff | internal/tenant/repository/postgres_repository.go:368-372 | the last-owner refusal is given iff the target is the only owner and would stop being one, so an owned tenant stays owned |
| Membership.OwnersWritten | internal/tenant/repository/postgres_repository.go:374-385 | the owners after a write: plus the target if it was made owner, minus it otherwise |
| Membership.Repository.AcceptInvite | internal/tenant/repository/postgres_repository.go:154-239 | accepted iff the invite is open, unexpired, its sender still owner or admin, sent to this user's address and the user no member; then the member has the invite's role and the invite is consumed; refusals in the source's precedence change nothing |
| Membership.Repository.RevokeInvite | internal/tenant/repository/postgres_repository.go:519-551 | revoked iff this tenant's and not accepted, by its first revoker; revoking twice is revoking once |
| Membership.Repository.ProvisionOwner | internal/tenant/repository/postgres_repository.go:101-140 | within five attempts the first unused slug becomes a tenant whose only new row makes the user its owner, or nothing happens |
| Membership.FreeSlugIff | internal/tenant/repository/postgres_repository.go:101-140 | a slug is taken iff some attempt generates it unused and every earlier attempt collided |
| MembershipProtocol.Reachable | internal/tenant/repository/postgres_repository.go:345-484 | in every interleaving counted owners are owners now and locked by the counter, and a locked target has the role that was read |
| MembershipProtocol.AlwaysOwned | internal/tenant/repository/postgres_repository.go:345-484 | a tenant that ever had an owner has one in every later committed state, for arbitrarily stale scans |
| MembershipProtocol.ProvisionedIsOwned | internal/tenant/repository/postgres_repository.go:101-140 | a provisioned tenant has an owner from its first committed state |
| MembershipProtocol.CommitsAreSequential | internal/tenant/repository/postgres_repository.go:345-426 | every change commits exactly as the one-call-at-a-time repository would on the rows of that moment, and refuses whenever that would for the last owner |
| MembershipProtocol.CommitStores | internal/tenant/repository/postgres_repository.go:345-426 | an interleaved commit stores the very role asked for or deletes that row, and nothing else |
| MembershipProtocol.AcceptStores | internal/tenant/repository/postgres_repository.go:154-239 | in every interleaving an acceptance stores the invite's own role, iff the invite is open, was valid when its row was locked and the user is no member by now |
| MembershipProtocol.AcceptLooks | internal/tenant/repository/postgres_repository.go:154-239 | an acceptance that locks its invite notes whether it is unexpired, rightly addressed and its sender still owner or admin |
| MembershipProtocol.SpuriousRefusalIff | internal/tenant/repository/postgres_repository.go:368-372 | the last-owner refusal is given where the one-call-at-a-time repository would go through iff the target is an owner losing the role, other owners exist, and either the target was not counted and at most one other was, or it was and no other |
| MembershipProtocol.InviteEndsOneWay | internal/tenant/repository/postgres_repository.go:154-239 | in every interleaving an invite is consumed at most once, by the recorded user, and never both accepted and revoked |
| MembershipProtocol.InviteEndIsFinal | internal/tenant/repository/postgres_repository.go:519-551 | an accepted or revoked invite is never changed again |
| MembershipProtocol.AdminChangesOwnersIff | internal/tenant/service/tenant_service.go:344-355 | an admin's commit changes the owner set iff its target turned out to be an owner under lock and another owner was counted |
| OwnerLocks.WaitingPointsForward | internal/tenant/repository/postgres_repository.go:460-484 | every wait goes to a later stage or to a higher user in the scan |
| OwnerLocks.NoDeadlock | internal/tenant/repository/postgres_repository.go:428-484 | no cycle of waits in any reachable state whose live transactions agree on each other's targets |
| OwnerDeadlock.DeadlockIff | internal/tenant/repository/postgres_repository.go:345-484 | calls that have locked nothing yet can come to wait in a circle, under any role changes and removals beside them, iff positions exist at which each wants an existing row that, of these calls, exactly the next one has passed |
| OwnerDeadlock.HonestDeadlockIff | internal/tenant/repository/postgres_repository.go:345-484 | in a tenant with an owner the same condition decides whether runs in which every call reads the truth reach the circle |
| OwnerDeadlock.CycleIsEntangled | internal/tenant/repository/postgres_repository.go:460-484 | in every reachable state, whatever was removed before, each call of a circle of waits wants an existing row that of these calls exactly the next one has passed |
| OwnerDeadlock.SimpleCycle | internal/tenant/repository/postgres_repository.go:428-458 | every closed path of waits contains a circle of distinct transactions |
| OwnerDeadlock.SameFirstRowIsSafe | internal/tenant/repository/postgres_repository.go:428-458 | any number of calls that all lock the same row first form no circle of waits in any reachable state in which that row exists |
| OwnerDeadlock.TidyIsSafe | internal/tenant/repository/postgres_repository.go:428-458 | calls that agree on each other's targets are not entangled at any positions |
| OwnerDeadlock.UntidyYetSafe | internal/tenant/repository/postgres_repository.go:428-458 | agreement is not necessary: two calls that disagree and are not entangled at any positions, whichever rows exist |
| OwnerSolo.RunAlone | internal/tenant/repository/postgres_repository.go:345-426 | a change run from begin to commit while nobody else holds a row commits what the one-call-at-a-time repository does and leaves everything else as it was |
| OwnerLocks.SameScanIsTidy | internal/tenant/repository/postgres_repository.go:428-458 | transactions that scanned the same owners agree, the owners-demoting-each-other case |
| OwnerLocks.SomeoneCanStep | internal/tenant/repository/postgres_repository.go:428-458 | then some live transaction can take its next step |
| OwnerLocks.EveryoneFinishes | internal/tenant/repository/postgres_repository.go:428-458 | then all live transactions can run to their end without an abort |
| MembershipRaces.DeadlockFromHonestSnapshots | internal/tenant/repository/postgres_repository.go:428-458 | a run of honest reads that ends with two transactions waiting for each other |
| MembershipRaces.TheRaceIsEntangled | internal/tenant/repository/postgres_repository.go:428-458 | the lock lists of these two calls are entangled, as read, while both rows exist |
| MembershipRaces.SharedFirstRowGoes | internal/tenant/repository/postgres_repository.go:428-458 | a run of honest reads that ends with two calls that lock the same row first waiting for each other, after that row was removed |
| MembershipRaces.AdminDemotesAnOwner | internal/tenant/service/tenant_service.go:344-363 | a run of honest reads in which an admin's commit demotes an owner |
| TenantService.Service.RequireLiveOwnerOrAdmin | internal/tenant/service/tenant_service.go:267-279 | the live membership role, iff it is owner or admin |
| TenantService.Service.UpdateRole | internal/tenant/service/tenant_service.go:316-378 | database and answer, every refusal in the source's order; a failed email lookup comes after the commit |
| TenantService.Service.Evict | internal/tenant/service/tenant_service.go:380-423 | database and answer of a removal |
| TenantService.Service.Invite | internal/tenant/service/tenant_service.go:140-220 | database and answer of an invitation |
| TenantService.Service.Accept | internal/tenant/service/tenant_service.go:222-245 | database and answer of an acceptance |
| TenantService.Service.Revoke | internal/tenant/service/tenant_service.go:467-486 | database and answer of a revocation |
| MembershipRules.RoleChangeIff | internal/tenant/service/tenant_service.go:316-378 | exactly who may change whose role to what, and that this role is stored; the email lookup changes only the answer |
| MembershipRules.RemovalIff | internal/tenant/service/tenant_service.go:380-423 | exactly who may remove whom, and that this row goes |
| MembershipRules.InvitationIff | internal/tenant/service/tenant_service.go:140-220 | exactly who may invite with which role; the invite names role, address and sender and stands for a week |
| MembershipRules.AcceptanceIff | internal/tenant/service/tenant_service.go:222-245 | exactly who may accept which invite, and what it stores |
| MembershipRules.RevocationIff | internal/tenant/service/tenant_service.go:467-486 | exactly who may revoke which invite, and what it stores |
| MembershipRules.JoinedAsInvited | internal/tenant/service/tenant_service.go:140-245 | whatever serial calls come between, whoever joins by an invite holds the role its sender named, at that address, within the week, the sender still entitled |
| OwnerAuthority.OwnersAfterCall | internal/tenant/service/tenant_service.go:140-486 | exactly what any service call does to any tenant's owners |
| OwnerAuthority.OnlyOwnersChangeOwners | internal/tenant/service/tenant_service.go:316-423 | the owner set changes only by provisioning a new tenant or by a call from a present owner about somebody else |
| OwnerAuthority.EveryOwnerChangeHasAnOwner | internal/tenant/service/tenant_service.go:316-423 | the same at every point of every serial run |
| OwnerAuthority.LastOwnerIsNeverAnswered | internal/tenant/service/tenant_service.go:340-363 | in serial runs the last-owner refusal is never given |
| OwnerAuthority.EndedInviteStays | internal/tenant/repository/postgres_repository.go:193-209 | over every serial run an ended invite stays as it ended |
| OwnerAuthority.NeverAcceptedAgain | internal/tenant/repository/postgres_repository.go:193-209 | and no later call of the run accepts it |
| TenantService.CallersAreDistinct | internal/tenant/service/tenant_service.go:341-343 | two callers are the same member iff their user ids are equal |
| TenantDomain.RoleNamesReadBack | internal/tenant/domain/tenant.go:11-25 | role names and roles correspond one to one |
| Discover.Discover | internal/platform/migrate/discover.go:51-100 | the readable migrations strictly ascending by version, or a refusal that names a real duplicate or unreadable file |
| Discover.SortByVersion | internal/platform/migrate/discover.go:96-99 | the same migrations in version order |
| Discover.WalkOrderIsIrrelevant | internal/platform/migrate/discover.go:51-100 | any two walks over the same files give the same list, or both refuse |
| Discover.RefusalsAreSound | internal/platform/migrate/discover.go:51-100 | discovery answers iff everything is readable and no version is used twice |
| MigrationNames.NamedIff | internal/platform/migrate/discover.go:30-32 | a file is a migration iff its name is six digits, an underscore, a slug and .up.sql |
| MigrationNames.VersionsFollowDigits | internal/platform/migrate/discover.go:62-75 | two migrations have one version iff their six digits are equal, and versions follow the order of the digit texts |
| MigrationNames.FoundByNumber | internal/platform/migrate/discover.go:51-100 | files named after numbers are found under those numbers, with slug, path, text and checksum, in numeric order and nothing else, iff no number repeats |
| Ledger.Database.Inspect | internal/platform/migrate/ledger.go:71-133 | Missing, Mismatched and Unknown are sorted and exactly the three set differences between disk and ledger |
| Ledger.DifferencesAreDisjoint | internal/platform/migrate/ledger.go:94-132 | the three differences are pairwise disjoint, and a version in none of them is absent from both sides or agrees |
| Ledger.Database.Verify | internal/platform/migrate/ledger.go:210-226 | no error iff the ledger exists and covers every file with an equal checksum; each error names exactly the offending versions |
| Ledger.CurrentIff | internal/platform/migrate/ledger.go:210-226 | the verdict on an exact difference is "current" iff the ledger covers the files |
| Ledger.Database.Up | internal/platform/migrate/ledger.go:235-273 | schema history, ledger, applied versions and success, each commit applied, lost or failed |
| Ledger.Database.ApplyOne | internal/platform/migrate/ledger.go:275-299 | DDL and ledger row together or neither; a version already recorded is refused by the key |
| Ledger.Database.Adopt | internal/platform/migrate/ledger.go:315-353 | the claimed rows are recorded without running any DDL, and every refusal |
| LedgerRuns.UpCommitsAPrefix | internal/platform/migrate/ledger.go:235-299 | wherever Up stops, what it committed is a prefix of the work left, and success means all of it |
| LedgerRuns.UpExactly | internal/platform/migrate/ledger.go:235-299 | Up refuses unaccounted tables and changed files; otherwise it runs the oldest missing files up to where it stops, appends their SQL, records name and checksum, keeps every other row, and reports all but perhaps the last |
| LedgerRuns.AdoptExactly | internal/platform/migrate/ledger.go:315-353 | Adopt runs no SQL, refuses exactly an empty database and a version below every file, records the files up to the version by name and checksum, and keeps every row there |
| LedgerRuns.ResumeReachesTheSame | internal/platform/migrate/ledger.go:235-299 | interrupting Up anywhere and rerunning it gives the schema and ledger of one uninterrupted run |
| LedgerRuns.VerifyAfterUp | internal/platform/migrate/ledger.go:210-273 | after any successful Up, Verify returns no error |
| LedgerRuns.FreshUp | internal/platform/migrate/ledger.go:235-299 | from an empty database Up runs every migration once, ascending |
| LedgerRuns.AdoptThenUpIff | internal/platform/migrate/ledger.go:235-353 | adopting at k and then applying reaches the complete schema iff the database truly held the versions up to k |
| LedgerRace.AlwaysAPrefix | internal/platform/migrate/ledger.go:235-299 | with any number of concurrent appliers over stale reads, stopping anywhere, ledger and DDL history are always one prefix of the version order |
| LedgerRace.CommitExtends | internal/platform/migrate/ledger.go:275-299 | a commit that the primary key admits is of the next version after the prefix |
| LedgerRace.FinishedMeansComplete | internal/platform/migrate/ledger.go:235-273 | a concurrent applier that succeeds leaves the complete schema |
| LedgerRace.LoneRunFinishes | internal/platform/migrate/ledger.go:235-273 | an undisturbed applier of the interleaved machine finishes with the complete schema |
| FixedWindow.Account | internal/pkg/ratelimit/ip_limiter.go:45-71 | how many requests any interval let through, by where the open window lies |
| FixedWindow.RateBound | internal/pkg/ratelimit/ip_limiter.go:45-71 | at most 2·max − 1 in any closed interval as long as the window |
| FixedWindow.RateBoundIsTight | internal/pkg/ratelimit/ip_limiter.go:45-71 | the bound is reached for every max and length |
| FixedWindow.WindowBound | internal/pkg/ratelimit/ip_limiter.go:45-71 | the open window let through exactly its counter, at most max |
| FixedWindow.EveryWindowBound | internal/pkg/ratelimit/ip_limiter.go:45-71 | at most max within every window ever opened, whatever came after it; later windows begin after it ends |
| IPLimiter.IPLimiter.constructor | internal/pkg/ratelimit/ip_limiter.go:22-34 | a non-positive limit disables it, a non-positive window becomes a minute |
| IPLimiter.IPLimiter.Allow | internal/pkg/ratelimit/ip_limiter.go:45-71 | answer and map after a call, sweep included |
| IPLimiter.IPLimiter.Sweep | internal/pkg/ratelimit/ip_limiter.go:53-60 | the loop deletes exactly the expired windows |
| IPLimiter.SweepChangesNoAnswer | internal/pkg/ratelimit/ip_limiter.go:42-71 | for every call sequence in clock order the answers are those of a limiter that never deletes |
| IPLimiter.MapStaysSmall | internal/pkg/ratelimit/ip_limiter.go:42-71 | the map never exceeds 1024, or one more than the windows unexpired at the latest insertion |
| IPLimiter.KeyIsAFixedWindow | internal/pkg/ratelimit/ip_limiter.go:45-71 | each non-empty key sees a fixed window of its own calls |
| IPLimiter.KeyRate | internal/pkg/ratelimit/ip_limiter.go:45-71 | so at most 2·max − 1 requests of a key in any window-long interval |
| IPLimiter.KeyWindow | internal/pkg/ratelimit/ip_limiter.go:45-71 | and at most max within any window the key had at any point of the run |
| IPLimiter.KeysAreIndependent | internal/pkg/ratelimit/ip_limiter.go:45-71 | a call changes no other key's window as later calls see it |
| IPLimiter.DisabledRefusesNobody | internal/pkg/ratelimit/ip_limiter.go:45-48 | a disabled limiter refuses nobody and remembers nobody; the empty key is never refused |
| AllowSampler.AllowSampler.Log | internal/pkg/authz/decision_logger.go:131-163 | window, counters, forwarded records and reports after a decision |
| AllowSampler.Conservation | internal/pkg/authz/decision_logger.go:131-163 | every allow was forwarded, reported as dropped, or is still counted; every denial and error was forwarded in order |
| AllowSampler.SilentLoss | internal/pkg/authz/decision_logger.go:131-163 | with no logger for the report line, exactly the reported ones vanish |
| AllowSampler.SamplerIsAFixedWindow | internal/pkg/authz/decision_logger.go:131-163 | the sampler forwards what a fixed one-second window would |
| AllowSampler.ForwardsTheChosen | internal/pkg/authz/decision_logger.go:131-163 | exactly the denials, the errors and the allows the window lets through reach the log, in order; without a limit everything |
| AllowSampler.VolumeBound | internal/pkg/authz/decision_logger.go:131-163 | at most 2·limit − 1 allows forwarded in any second |
| TenantDomain.MintingIsStrict | internal/tenant/domain/tenant.go:78-93 | only owner and admin mint, never their own role nor owner, never in both directions |
| Tokens.ParsesIff | internal/auth/jwt/token.go:365-469 | exactly which tokens parse: live main-key ones with no delivery or preview claim and a complete agent set or none, and live delivery-key ones marked delivery with no actor kind; parsing yields the claims unchanged |
| Tokens.AccessTokenRoundTrip | internal/auth/jwt/token.go:126-147 | an access token parses to its claims iff it has not expired, and names its user |
| Tokens.AgentTokenRoundTrip | internal/auth/jwt/token.go:263-312 | likewise for agent tokens, with credential id and principal |
| Tokens.DeliveryTokenRoundTrip | internal/auth/jwt/token.go:156-179 | an unexpired delivery token parses iff the two keys differ |
| Tokens.PreviewTokenRoundTrip | internal/auth/jwt/token.go:339-363 | likewise for preview tokens, which name their entry |
| Authn.LoginIsItsSubject | internal/auth/jwt/token.go:126-147 | a login token acts, until its whole-second expiry, as the subject with exactly the user, roles, tenant, role, region and MFA mark it was issued for, and then as nobody |
| Authn.BearerIff | internal/pkg/authn/jwt_middleware.go:59-138 | a bearer is somebody iff its token parses and every identifier it needs reads; a narrowing claim is never dropped |
| Authn.AgentIsItsSubject | internal/auth/jwt/token.go:263-312 | an agent token acts as its minter's person in the minter's tenant and region, with the role, agent id, whitelist and record asked for and no platform role |
| Authn.AgentIsAdmittedIff | internal/pkg/authn/jwt_middleware.go:35-163 | and only while a checker calls that record active |
| Authn.DeliveryIsItsSubject | internal/auth/jwt/token.go:156-179 | a delivery token acts as a viewer of its tenant marked for delivery, with nothing else |
| Authn.PreviewIsItsSubject | internal/auth/jwt/token.go:339-363 | a preview token the same for half an hour, for its one entry |
| Authn.AgentIssuedIff | internal/auth/jwt/token.go:263-290 | exactly which requests for an agent token the signer grants |
| Authn.TouchesIff | internal/pkg/authn/subject.go:116-124 | an agent may touch exactly the named content types it was issued for, its minter all |
| Authn.FindRole | internal/pkg/authn/subject.go:156-163 | the search finds a platform role iff the subject has it |
| Authn.AgentsNeedAnActiveRecord | internal/pkg/authn/jwt_middleware.go:35-163 | a parsed agent token acts as its subject iff a checker is wired and calls its own record active; otherwise the request is anonymous |
| Authn.AdmittedAgentIsComplete | internal/pkg/authn/jwt_middleware.go:59-138 | an admitted agent has agent id, whitelist, record and principal, and answers as its principal |
| Authz.UnruledIsDenied | internal/pkg/authz/rbac_authorizer.go:43-125 | a tenant-plane verb without a rule is denied to everyone, and every verb with one is decided there |
| Authz.RolesAreMonotone | internal/pkg/authz/rbac_authorizer.go:21-278 | a higher membership role is refused nothing a lower one is allowed |
| Authz.TenantPlaneIff | internal/pkg/authz/rbac_authorizer.go:43-278 | exactly which tenant-plane verbs a person may exercise, by role |
| Authz.PlatformPlaneIff | internal/pkg/authz/rbac_authorizer.go:125-172 | exactly what a person may do on the platform plane: admins everything, others six verbs on themselves |
| Authz.AgentMayIff | internal/pkg/authz/agent_gate.go:29-97 | exactly what an agent may do: six verbs, and only the two reads as viewer |
| Downgrade.DowngradeIsSound | internal/auth/jwt/token.go:263-312 | gate and matrix allow an agent nothing they refuse its minter, on any resource and content type, and it is strictly less |
| Downgrade.AgentsDoNotMint | internal/auth/jwt/token.go:263-312 | an agent token is refused as a minter, and its subject the verb |
| Downgrade.MintsIff | internal/auth/service/agent_credential_service.go:103-190 | exactly whose request for an agent credential is granted |
| Downgrade.GrantedCirculates | internal/auth/service/agent_credential_service.go:103-190 | what is granted circulates as the credential the signer issues to that bearer |
| Downgrade.DelegationIsOneDeep | internal/auth/service/agent_credential_service.go:103-190 | after any number of mintings every credential was minted from one of the tokens there at the start |
| Downgrade.NothingIsGained | internal/auth/service/agent_credential_service.go:103-190 | and is allowed nothing that token is not |
| Uuids.ParseFormat | internal/pkg/outbox/event.go:25-27 | the textual form of an identifier reads back as it |
| Uuids.FormatParse | internal/pkg/outbox/event.go:25-27 | any text read as an identifier is its canonical text, up to the case of the digits |
| Uuids.NumberOrderIsTextOrder | internal/tenant/repository/postgres_repository.go:460-484 | users sort by their number as their identifiers sort as text, the order rows are locked in |
| Uuids.IdempotencyKeyInjective | internal/pkg/outbox/event.go:25-27 | two keys are equal iff user and version are |
| Uuids.ContentKeysAreDisjoint | internal/cms/content/repository/webhook_repository.go:120-147 | keys of content events are never keys of user events |
| UserEvents.UserRepository.Create | internal/user/repository/postgres_user_repository.go:55-105 | users row and event together or neither; an unversioned user becomes version one either way |
| UserEvents.UserRepository.PublishUserEvent | internal/user/repository/postgres_user_repository.go:205-225 | the next version and its event together or neither; the argument keeps the bumped version even on rollback |
| UserEvents.NextVersionIsStored | internal/user/repository/postgres_user_repository.go:205-225 | the next version's event is always stored and leaves no gap |
| UserEvents.CreationIsGaplessIff | internal/user/repository/postgres_user_repository.go:55-58 | registration leaves no gap iff the user comes unversioned or at version one |
| UserEventsProtocol.NoGaps | internal/user/repository/postgres_user_repository.go:55-225 | in every interleaving with rollbacks the user events of u are exactly u:1 up to u:status_version |
| UserEventsProtocol.NothingIsSwallowed | internal/pkg/outbox/postgres_repository.go:23-30 | ON CONFLICT DO NOTHING never drops a user event |
| UserEventsProtocol.CommitRecords | internal/user/repository/postgres_user_repository.go:205-225 | an interleaved commit is the one-at-a-time recording of the next version |
| UserEventsProtocol.PublishAlone | internal/user/repository/postgres_user_repository.go:205-225 | an undisturbed publish of the interleaved machine is the one-at-a-time recording |
| UserEventsProtocol.RegisterAlone | internal/user/repository/postgres_user_repository.go:55-105 | the same for a registration, which an unversioned user begins at version one |
| UserDelivery.RecordingAnnounces | internal/user/repository/postgres_user_repository.go:55-225 | registering or publishing leaves one pending row of that type naming the user, keyed user:version, which the worker routes to the other system |
| UserDelivery.EveryVersionArrives | internal/user/repository/postgres_user_repository.go:55-225 | after any interleaving and a drain, each version of each user has exactly one row, it is done, and it was handed over exactly once |

## Left out

- uuid.Parse: only the 36-character form, digits in either case; the other spellings the library reads are not part of this model.
- Signatures and digests are ideal: a token is its key and claims, a MAC determines key and body. Two keys that HMAC pads to the same block count as different.
- JSON: parsing and marshalling are ideal, and nil and empty lists read alike.
- Delayed commits: a statement whose answer is lost has taken effect by then, or never does.
- Different retry limits for different workers on one table.
- The receiver's restarts, and a crash between accepting an id and acting on it.
- The MCP client and server behind user events: a send either succeeds or fails.
- Ledger timestamps and durations.
- Real clocks: instants are integers, read in lock order; nil receivers of the limiters.
- OutboxRefinement.WorkerRefinesProtocol: the machine keeps no record of MCP upserts and of the tenants notified, so `upserts` and the content of `notices` have no counterpart there.
- OutboxWorker.Worker.Run: a run is a finite list of ticks; the ticker and the shutdown context are not modelled.
- TenantService.Service.Invite: the new identifier is fresh, as a random UUID is taken to be; encryption, the raw token and its digest are not modelled.
- TenantService.Service.Evict: the best-effort revocation of refresh tokens after a removal.
- Tenant ids: a tenant's slug is its id. Database errors before a write, which change nothing.
- MembershipProtocol.Reachable: the order in which rows are returned to a waiter, and lock upgrades by the database, are not modelled; a deadlocked transaction is aborted by an explicit step.
- Hard deletion of users and what cascades from it; the status column that SoftDelete writes in a transaction of its own.
- UserEvents.UserRepository.Create: credentials, provisioning and the registration key that share its transaction, and the path without an outbox.
- The OPA authorizer, dev headers, login and refresh, HTTP, routing, configuration, metrics exposition, log text: plumbing or policy text not modelled.
- GraphQL, CMS content, scheduler, media, notification, IAM and platform repositories, and the example's mirror: easy members only.
