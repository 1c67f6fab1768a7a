# Verified model of the mail pipeline

A Dafny model of the mail intelligence platform's mail pipeline and of the proofs its design rests
on. PostgreSQL is the shared state: folder syncs write messages, participants, folder memberships
and outbox events; outbox workers project those events into Elasticsearch and queue embeddings;
credential refreshes, token rotations and the embedding backfill run beside them. Everything that
runs concurrently is modelled over every interleaving of its committed transactions, with arbitrary
clocks, crashes, lease expiries and takeovers.

Run `dafny verify dfyconfig.toml` to check it.

## How it is built

| file | what it models |
|---|---|
| `Leases.dfy`, `MailRepositories.dfy` | one fenced lease register, and the three rows that instantiate it |
| `Participants.dfy`, `MailData.dfy`, `MessageProcessing.dfy` | the canonical tables, three-valued updates, recipients, memberships, the outbox ledger, resync |
| `StoredForm.dfy` | what a provider message looks like once stored, column by column, without the functions that store it |
| `MailStore.dfy` | the page transaction's writes, as methods on a class, each equal to the change it stands for and to that stored form |
| `SyncSystem.dfy`, `SyncGenerations.dfy`, `SyncRun.dfy`, `SyncOrchestrator.dfy` | transactions of all folder syncs, the generations they stamp with, the invariant of one run among them, and the sync loop itself |
| `OutboxLifecycle.dfy`, `OutboxPolling.dfy` | the life of one outbox event, queue job ids, backoff, the poller |
| `Projection.dfy`, `Convergence.dfy`, `EmbeddingFate.dfy`, `EnqueueOrder.dfy`, `OutboxProcessing.dfy` | tables, workers, queue, backfill and search index as one system, with writes that arrive late; its invariants; what becomes of embeddings; the worker's own code |
| `CredentialRefresh.dfy` | the fenced credential refresh, next to reconnects that ignore the fence |
| `Sessions.dfy` | device sessions and refresh-token rotation |
| `Backfill.dfy`, `TimeWindows.dfy`, `RateLimiting.dfy` | keyset backfill, calendar windows, the sliding-window limiter |

A class method is proved equal to a specification function of its old state (or to a run of the
transition system), and the theorems are lemmas about those functions and runs. Where a method and its
specification share a function, the contract also says column by column what comes out. What a method cannot
foresee (the provider, the clock, other workers, crashes) is a parameter, and the contract holds for
all of them.

## Where the code and its documentation disagree

- The handler for an expired delta cursor comes after the one for its base class
  (`apps/api/app/services/sync_orchestrator.py:309` and `:332`; `packages/providers/src/mip_providers/errors.py:47`),
  so as written it never runs. The order of the handlers is a parameter of the model:
  `SyncOrchestrator.RestartArmIsDeadAsWritten` proves the arm dead, `SyncOrchestrator.SyncFolder`
  proves what a run does with the handlers as written and as the docstring intends.
- The resync generation is read before the lease is taken (`sync_orchestrator.py:120-141`). If another
  run restarts in between, a resync is not exact any more: `SyncSystem.AStaleReadMakesAResyncInexact`
  is such an interleaving, `SyncSystem.EveryContinuationEndsExactIff` gives the exact condition at the
  restart, and `SyncGenerations.RestartsOpenAFreshGeneration` and `SyncRun.TimelyResyncsAreExact`
  prove that every resync is exact as long as no run was overtaken between that read and its lease.
- The folder sync refreshes credentials without an expected generation
  (`sync_orchestrator.py:215-219`), so a credential that was just refreshed may be refreshed again:
  `CredentialRefresh.RefreshesOnceIffGuarded`.
- Reconnecting an account (`apps/api/app/mail/service.py:83-147`) overwrites the credential without the
  lease and without a new generation, so the fence of the refresh does not cover it. A reconnect during
  the provider call is lost: `CredentialRefresh.AReconnectCanBeLost`;
  `CredentialRefresh.RefreshAnswersTheStoredTokenIff` says exactly when a refresh is sound.
- DONE does not promise a stored vector, whatever the queue accepted: in the run of
  `EmbeddingFate.AllDoneAndTheVectorIsLost` all events are DONE, all jobs ran and the current document
  has no vector. `EmbeddingFate.DrainedRunHoldsTheVectorIff` says exactly when it has one.
- The limiter counts distinct timestamps, not calls: `RateLimiting.SimultaneousCallsCountOnce`, and
  `RateLimiting.LimitHoldsIffTimesAreDistinct` for the exact condition.
- The backfill reads the sender under the provider's key (`apps/workers/src/mip_workers/backfill.py:163-167`),
  where the sync never stores it. Its vectors agree with those of the live path if and only if the
  message has no sender address: `Projection.InputsAgreeIffThereIsNoSender`.

## Assumption about Elasticsearch

The scripted `_update` that stores a vector is assumed not to move a document's external version. The
source does not show this. `EmbeddingFate.ConvergesIffUpdatesDoNotBump` proves that index convergence
holds over every run if and only if it does not; the theorems that need it say so with `bump == 0`.

## Model

| member | source | states |
|---|---|---|
| Leases.GrantsAreDistinct | apps/api/app/repositories/mail.py:181-210 | whatever the clocks, no lease version is granted twice in a run |
| Leases.StaleWritesAreFenced | apps/api/app/repositories/mail.py:212-300 | after a newer grant no renew, compare-and-set, finalise or release with an older version changes the row |
| Leases.EveryEffectiveWriteIsTheHolders | apps/api/app/repositories/mail.py:237-275 | every write that takes effect belongs to exactly one grant, made to that worker at that version, with no other writer in between |
| Leases.OverdueHolderStillWrites | apps/api/app/repositories/mail.py:212-235 | expiry alone fences nobody out; only a takeover does |
| Leases.LeasesLast | apps/api/app/repositories/mail.py:181-235 | a lease that its holder neither gives up nor cuts short is kept until a clock passes the expiry set at its grant |
| Leases.TakenOverIffExpired | apps/api/app/repositories/mail.py:188-206 | while the holder does nothing, another grant is made exactly to a clock beyond that expiry |
| MailRepositories.MailSyncStateRow.AcquireSyncLease | apps/api/app/repositories/mail.py:181-210 | grants exactly when unlocked or expired; then the lock is the worker's for the duration, the version is one up and nothing else moves |
| MailRepositories.MailSyncStateRow.RenewSyncLease | apps/api/app/repositories/mail.py:212-235 | extends the expiry under worker and version only |
| MailRepositories.MailSyncStateRow.UpdateSyncStateCas | apps/api/app/repositories/mail.py:237-275 | absent token or generation keeps the column, clearing needs an absent token, and only the holder writes |
| MailRepositories.MailSyncStateRow.ReleaseSyncLease | apps/api/app/repositories/mail.py:277-300 | clears the lock under worker and version only |
| MailRepositories.MailAccountRow.AcquireRefreshLease | apps/api/app/repositories/mail.py:53-86 | grants exactly when unlocked or expired, for the duration; returns the new lease version and the generation it saw |
| MailRepositories.MailAccountRow.FinalizeRefreshLease | apps/api/app/repositories/mail.py:88-114 | bumps the generation exactly when it succeeds |
| MailRepositories.MailAccountRow.ReleaseRefreshLease | apps/api/app/repositories/mail.py:116-137 | never moves the generation |
| MailRepositories.OutboxEventRow.AcquireOutboxLease | apps/api/app/repositories/mail.py:492-529 | claims exactly a due, unfinished, unlocked or expired event for the duration and puts it in flight |
| MailRepositories.OutboxEventRow.UpdateStatusCas | apps/api/app/repositories/mail.py:531-569 | settles under worker and version and unlocks; a recorded error counts an attempt; every other column stays |
| Participants.NormalizeIsIdempotent | apps/api/app/services/sync_orchestrator.py:619-625 | a stored address survives being normalised again, which comparing stored with incoming addresses relies on |
| Participants.SortedEqualIffSameBag | apps/api/app/services/sync_orchestrator.py:619-627 | sorted lists of pairs are equal if and only if the multisets are |
| Participants.SameParticipants | apps/api/app/services/sync_orchestrator.py:612-627 | the comparison decides whether stored rows and incoming recipients are the same multiset |
| MailData.FieldUpdatesCompose | apps/api/app/services/sync_orchestrator.py:543-596 | two updates in a row are their last-writer-wins merge; absence is the identity; repeating adds nothing |
| MailData.RecipientUpdatesCompose | apps/api/app/services/sync_orchestrator.py:599-639 | the same for the recipient lists of each role |
| StoredForm.NormalizedIsStripped | apps/api/app/services/sync_orchestrator.py:590-593 | a normalised address is the given one between its first and last character that is not blank, capitals made small |
| StoredForm.ListIsCounted | apps/api/app/services/sync_orchestrator.py:619-639 | a recipient list stores each participant exactly as often as it lists an address that is stored so |
| StoredForm.PatchedColumnsFollow | apps/api/app/services/sync_orchestrator.py:541-639 | an update settles each of the seven fields and each of the three roles by its own part: absent keeps, null clears (but keeps a flag), a value replaces |
| StoredForm.DeliveryMeans | apps/api/app/services/sync_orchestrator.py:490-696 | the tables after a delivery, column by column: version and event exactly if a field, a recipient or the folder is new, and no other message moves |
| StoredForm.PagePlaces | apps/api/app/services/sync_orchestrator.py:389-411 | where a page leaves every membership: removed ones out, even if delivered on the same page; delivered ones in, under its generation; others where they were |
| MessageProcessing.ChangeBumpsIffContentChanges | apps/api/app/services/sync_orchestrator.py:541-694 | a stored message's version rises by one, with one event, exactly when its searchable content changed |
| MessageProcessing.CreationIsAnnounced | apps/api/app/services/sync_orchestrator.py:497-531 | a first delivery creates version 1 and announces it; nothing else creates a message |
| MessageProcessing.LedgerHolds | apps/api/app/services/sync_orchestrator.py:657-694 | after any changes, a message's events are versions 1 to its current one, one each, in order |
| MessageProcessing.ContentIsAFunctionOfVersion | apps/api/app/services/sync_orchestrator.py:541-767 | over any run, while the version of a message stands still so does its projected document |
| MessageProcessing.IdempotencyKeysNeverCollide | apps/api/app/services/sync_orchestrator.py:659-685 | no two events share message and version |
| MessageProcessing.ValuesAreTheMergedUpdates | apps/api/app/services/sync_orchestrator.py:543-639 | stored values after any run are the initial ones under the merge of all updates delivered |
| MessageProcessing.MembershipsFollowTheirFate | apps/api/app/services/sync_orchestrator.py:641-731 | a membership after any run is decided by the last change that named it |
| MessageProcessing.ReplayConverges | apps/api/app/services/sync_orchestrator.py:389-411 | applying any changes twice gives the contents and memberships of applying them once |
| MessageProcessing.SecondPassOfAPageIsSilent | apps/api/app/services/sync_orchestrator.py:389-411 | a page of distinct ids disjoint from its removals changes nothing at all the second time: no version, no event |
| MessageProcessing.ReconciliationIsExact | apps/api/app/services/sync_orchestrator.py:735-767 | the clean-up drops exactly the older stamps of the folder, touches nothing else, and gives each dropped message one version and one event |
| MessageProcessing.ResyncIsExact | apps/api/app/services/sync_orchestrator.py:401-423 | after a resync the folder holds exactly what was delivered and not removed later; other folders are untouched |
| MessageProcessing.ResyncIsExactIffStampsAreOlder | apps/api/app/services/sync_orchestrator.py:332-348 | exact for every resync if and only if the folder's stamps are older than the new generation |
| MailStore.Store.ReconcileRole | apps/api/app/services/sync_orchestrator.py:598-639 | null deletes, a list replaces the rows when its multiset differs, and change is reported exactly when there is one |
| MailStore.Store.ReconcileValues | apps/api/app/services/sync_orchestrator.py:508-639 | the stored values become the patched ones, each column and each role from its own part of the message; a stored message is reported changed exactly when they differ |
| MailStore.Store.ProcessProviderMessage | apps/api/app/services/sync_orchestrator.py:481-696 | all four tables after a delivery, equal to the change it stands for and spelled out column by column, new message or known; true exactly when an event was emitted |
| MailStore.Store.ProcessProviderRemoval | apps/api/app/services/sync_orchestrator.py:698-733 | all four tables after a removal, known and unknown messages alike |
| MailStore.Store.GetStaleMemberships | apps/api/app/repositories/mail.py:390-402 | lists each membership older than the generation once |
| MailStore.Store.ReconcileStaleMemberships | apps/api/app/services/sync_orchestrator.py:735-767 | drops exactly the older memberships of the folder, with one event each, in whatever order they come |
| MailStore.Store.ProcessPage | apps/api/app/services/sync_orchestrator.py:387-414 | deliveries, then removals; where every membership ends up; the counts are the events and, of these, the removals |
| SyncSystem.PageStatementIsRenewThenUpdate | apps/api/app/services/sync_orchestrator.py:381-444 | the lease check and the token update of a page act as one fenced write |
| SyncSystem.TransactionsMoveRows | apps/api/app/repositories/mail.py:181-300 | when each kind of transaction takes effect and what it does to every column of its folder's row; a page leaves DELTA_TRACKING exactly if it is a checkpoint or has nothing after it, and SYNCING otherwise |
| SyncSystem.TablesAndTokenComeFromOneLog | apps/api/app/services/sync_orchestrator.py:374-448 | at every point of every interleaving the tables are the fold of the committed pages and the token is the last continuation of those same pages |
| SyncSystem.OnlyTheHolderWrites | apps/api/app/services/sync_orchestrator.py:380-385 | while the lease version stands, every effective transaction on the folder carries it |
| SyncSystem.AStaleReadMakesAResyncInexact | apps/api/app/services/sync_orchestrator.py:120-143 | an interleaving of two resyncs in which the one that read its generation too early finishes, cleans up, and leaves a message that was not delivered |
| SyncSystem.ResyncIsExactUnderInterference | apps/api/app/services/sync_orchestrator.py:401-448 | a resync that still holds its lease at its final page is exact whatever other runs did meanwhile |
| SyncSystem.EveryContinuationEndsExactIff | apps/api/app/services/sync_orchestrator.py:335-448 | from the state a restart leaves, every way in which the run and all others can go on ends the resync exact if and only if the folder's stamps are older than the new generation |
| SyncGenerations.VersionsNameTheirRun | apps/api/app/repositories/mail.py:181-210 | two grants of a folder never share a version, so the version in a page or restart names the run that issued it |
| SyncGenerations.TimelyRunsUseTheRowGeneration | apps/api/app/services/sync_orchestrator.py:120-143 | if no run was overtaken between its read and its grant, every page and restart that takes effect uses the generation that the row has then |
| SyncGenerations.RestartsOpenAFreshGeneration | apps/api/app/services/sync_orchestrator.py:335-346 | in such an interleaving each restart opens a generation above every stamp in its folder, and all stamps stay bounded by their row |
| SyncRun.FinalPageIsExact | apps/api/app/services/sync_orchestrator.py:416-423 | the final page of a run's resync leaves the folder exact at that point of the interleaving, provided the stamps were older when it restarted |
| SyncRun.TimelyResyncsAreExact | apps/api/app/services/sync_orchestrator.py:335-423 | in every interleaving of runs that were not overtaken between read and grant, a run that restarted, kept its lease and reached its final page leaves the folder exact |
| SyncOrchestrator.RestartArmIsReachedIff | apps/api/app/services/sync_orchestrator.py:210-348 | an expired cursor restarts the sync exactly when its handler precedes the base class's |
| SyncOrchestrator.RestartArmIsDeadAsWritten | apps/api/app/services/sync_orchestrator.py:309-348 | no error reaches the restart as written; moving that arm up changes nothing for any other error |
| SyncOrchestrator.Handle | apps/api/app/services/sync_orchestrator.py:272-348 | which row update, report and retry time each kind of error earns |
| SyncOrchestrator.Answer | apps/api/app/services/sync_orchestrator.py:204-348 | one refresh at most, exactly for an expired authorisation with a service to ask, and one more call exactly if it works; the last call decides; expired authorisation is marked on the row; which continuation the next call asks for |
| SyncOrchestrator.Database.CommitOnePage | apps/api/app/services/sync_orchestrator.py:374-448 | the page transaction commits whole or not at all, exactly when the lease is held |
| SyncOrchestrator.SyncFolder | apps/api/app/services/sync_orchestrator.py:87-479 | for every provider, clock and interference: at most 1000 fetches, 1001 calls and one refresh; committed pages are a prefix of those fetched and no continuation is committed twice; processed, mutated and removed totals are those of the committed pages; every page but the last has more to come and is no checkpoint, and clean-up happens at the last page of a restarted run and nowhere else; success means DELTA_TRACKING was committed after every page, and a resync was exact if the stamps were older at its restart, hence always when no run was overtaken; a run with its lease ends in error only for a provider failure, which it reports by its kind, a repeated continuation, 1000 pages without a last one, or a clock that ran past its lease; a missing folder changes nothing; however it ends, the run no longer holds its lease |
| OutboxLifecycle.ClaimsAreAccountedFor | apps/api/app/repositories/mail.py:492-569 | in flight exactly while locked; a live event has budget left; the lease version counts failures, takeovers, completion and the open claim |
| OutboxLifecycle.ClaimsAreBounded | apps/workers/src/mip_workers/outbox_worker.py:386-447 | claims are at most the attempt budget plus takeovers |
| OutboxLifecycle.TerminalIsForever | apps/api/app/repositories/mail.py:505-515 | DONE and DEAD_LETTER never change again, however late a worker comes |
| OutboxLifecycle.OnlyTheClaimantSettles | apps/api/app/repositories/mail.py:531-569 | every settlement that takes effect belongs to one claim of that worker under that version, the only one in the run |
| OutboxLifecycle.OvertakenClaimantsAreFenced | apps/api/app/repositories/mail.py:541-569 | after a newer claim nothing an older claimant does changes the row |
| OutboxLifecycle.OverdueClaimantStillCompletes | apps/api/app/repositories/mail.py:541-569 | a worker whose lease ran out still completes if nobody claimed since |
| OutboxLifecycle.ClaimLastsItsDuration | apps/api/app/repositories/mail.py:503-523 | until its worker settles it, an event that was claimed can be claimed again exactly by a clock beyond the claim's duration |
| OutboxLifecycle.OneFailureNeverDeadLetters | apps/workers/src/mip_workers/outbox_worker.py:395-440 | a recoverable failure dead-letters exactly when it spends the budget, else it is due after its delay |
| OutboxLifecycle.RetriesWaitForTheirBackoff | apps/workers/src/mip_workers/outbox_worker.py:422-440 | no claim is granted before the retry time |
| OutboxLifecycle.JobIdsAreInjective | apps/workers/src/mip_workers/outbox_worker.py:123-161 | a job id determines its subject and number |
| OutboxLifecycle.JobIdsAreSpelled | apps/workers/src/mip_workers/outbox_worker.py:138-161 | the two job ids as they are spelled, with the number in decimal digits and no leading zero |
| OutboxLifecycle.ReclaimsGetFreshJobIds | apps/workers/src/mip_workers/outbox_worker.py:141-161 | an event's job id changes exactly when a claim was granted in between |
| OutboxLifecycle.BackoffDoublesUpToItsCeiling | apps/workers/src/mip_workers/outbox_worker.py:164-167 | the delay starts at the base, never exceeds the ceiling, never shrinks, and doubles until it gets there |
| OutboxPolling.DiscoveryAgreesWithTheLease | apps/workers/src/mip_workers/worker.py:279-298 | an event is discovered exactly when a claim made then would be granted |
| OutboxPolling.Poll | apps/workers/src/mip_workers/worker.py:301-362 | one tick over two queries: one job id for each discovered event that is still there, under the version it has by then, counting what the queue did not hold; without a queue each such event is processed once, in order |
| OutboxPolling.TicksCollapseUntilAClaim | apps/workers/src/mip_workers/worker.py:304-312 | ticks over one event add nothing more until a claim is granted, and then a new job |
| Projection.InputsAgreeIffThereIsNoSender | apps/workers/src/mip_workers/backfill.py:163-176 | the backfill computes an embedding from the same text as the live path if and only if the stored row has no sender address |
| Projection.LiveInputMeans | apps/workers/src/mip_workers/outbox_worker.py:476-485 | the text that is embedded is the stored subject, preview and sender address, each from its own column |
| Convergence.NewEntryIsSound | apps/workers/src/mip_workers/outbox_worker.py:250-278 | a document indexed under the current version agrees with the tables, in whatever order its three reads and the writes came |
| Convergence.ProjectedShows | apps/workers/src/mip_workers/outbox_worker.py:505-560 | the projected document is the message part by part: row, recipients per role, and exactly the folders it is in |
| Convergence.ArrivalKeepsEntries | apps/workers/src/mip_workers/es_adapter.py:66-150 | a document that was sent may arrive at any later time, and again, and the index stays sound |
| Convergence.StepKeepsInv | apps/workers/src/mip_workers/outbox_worker.py:215-357 | every step of any worker, writer, job, backfill, late write or crash keeps the projection's invariant |
| Convergence.IndexConverges | apps/workers/src/mip_workers/outbox_worker.py:235-357 | in every reachable state, once the event of a message's current version is DONE the indexed document is the message as it stands, part by part |
| Convergence.DrainedOutboxMeansIndexEqualsTables | apps/workers/src/mip_workers/outbox_worker.py:215-357 | when all events are DONE the index holds exactly the messages, each as it stands |
| Convergence.VectorsAreNeverStale | apps/workers/src/mip_workers/es_adapter.py:155-193 | a stored vector is of the document's version or a later one, computed by its writer, live or backfill, from the row of that version; on the current version, from the current row |
| EmbeddingFate.EntriesAreTheirLastWrite | apps/workers/src/mip_workers/es_adapter.py:66-214 | in every reachable state an entry holds a vector exactly when the last write that the index accepted for it was a vector |
| EmbeddingFate.DrainedRunHoldsTheVectorIff | apps/workers/src/mip_workers/outbox_worker.py:294-357 | when all events are DONE the current document has its vector if and only if an embedding of that version was accepted after the last document accepted for the message |
| EmbeddingFate.AllDoneAndTheVectorIsLost | apps/workers/src/mip_workers/outbox_worker.py:294-357 | a run from the start in which every event is DONE and every job ran, and the current document has no vector, because the queue refused to embed that version again |
| EmbeddingFate.ConvergesIffUpdatesDoNotBump | apps/workers/src/mip_workers/es_adapter.py:66-193 | index convergence holds over every run if and only if storing a vector leaves the external version alone |
| EnqueueOrder.EnqueuePrecedesDone | apps/workers/src/mip_workers/outbox_worker.py:294-357 | every DONE was preceded, in the same claim, by an index write and then by the enqueue for the version it read unless exempt; a failed enqueue never leads to DONE |
| EnqueueOrder.ClaimsStayBounded | apps/workers/src/mip_workers/outbox_worker.py:215-240 | the lifecycle of a single event holds for every event of the whole system |
| OutboxProcessing.SearchIndex.IndexMessage | apps/workers/src/mip_workers/es_adapter.py:66-118 | an older version is refused as a harmless conflict and changes nothing; a newer or equal one replaces the document and its vector |
| OutboxProcessing.SearchIndex.UpdateEmbeddings | apps/workers/src/mip_workers/es_adapter.py:155-214 | stores the vector and keeps the document unless that is newer; reports success exactly when the document exists |
| OutboxProcessing.OutboxWorker.EnqueueEmbedding | apps/workers/src/mip_workers/outbox_worker.py:452-499 | refuses to wait for the queue with a transaction open and counts the violation |
| OutboxProcessing.OutboxWorker.ProcessOutboxEvent | apps/workers/src/mip_workers/outbox_worker.py:215-447 | claims exactly a claimable event; goes by the row of its message as read from the tables under the claim, which is there for every supported event and no older than it; DONE, dead-lettered or retried exactly by the replies, with the delay the server names or the backoff; DONE comes with an index entry of the event's version or later and with the job of what was read; and unless somebody's clock passes the end of the claim the event is left exactly so, columns and all |
| CredentialRefresh.GenerationCountsTheRefreshes | apps/api/app/services/identity_provider.py:538-555 | the generation is the initial one plus the successful refreshes and counts no reconnect; the credential is the fold of exactly the refreshes and the reconnects |
| CredentialRefresh.StoredTokensAreTheLastWritten | apps/api/app/services/identity_provider.py:530-552 | the stored refresh token is the last one that a refresh or a reconnect brought, or the first if none did, and so are the scopes; access token and expiry are those of the last write |
| CredentialRefresh.OnlyAReconnectGetsPastTheLease | apps/api/app/services/identity_provider.py:451-540 | while a caller holds the lease the account row stands still, generation included, and the credential is the one at the grant, changed by exactly the reconnects since |
| CredentialRefresh.RefreshAnswersTheStoredTokenIff | apps/api/app/services/identity_provider.py:508-555 | a refresh that takes effect was bought with the refresh token stored at that moment if and only if no reconnect after its last read left a different one |
| CredentialRefresh.AReconnectCanBeLost | apps/api/app/mail/service.py:83-147 | a run in which a reconnect during the provider call is overwritten by a refresh of the token it replaced, and the generation counts one write of two |
| CredentialRefresh.MailAccount.ConnectAccount | apps/api/app/mail/service.py:83-147 | replaces the credential, or creates it, and leaves lease and generation alone |
| CredentialRefresh.GuardedCallersRefreshOnce | apps/api/app/services/identity_provider.py:438-492 | callers that expect at most generation g never take it beyond g + 1 |
| CredentialRefresh.RefreshesOnceIffGuarded | apps/api/app/services/identity_provider.py:438-492 | that bound holds for every run if and only if every caller passes an expectation, none above g |
| CredentialRefresh.MailAccount.RefreshMailAccountCredentials | apps/api/app/services/identity_provider.py:419-555 | whatever other callers and reconnects do: at most one refresh under its lease, exactly if it says so, with all four credential columns from the answer and what was stored; no path leaves the lease held; a reused credential is newer than expected. With a free lease, a credential no newer than expected and a provider that answers it does refresh, unless a clock runs past the lease |
| Sessions.VerdictMeans | apps/api/app/auth/sessions.py:172-254 | a refresh succeeds exactly for the current token of a session that is not revoked, not past its expiry and not idle beyond the limit; each refusal has exactly its reason; the lookup of the session of an unconsumed epoch never fails |
| Sessions.OneLiveToken | apps/api/app/auth/sessions.py:99-113 | each session always has exactly one unconsumed epoch, carrying its current hash |
| Sessions.ChainsStayWithinLimits | apps/api/app/auth/sessions.py:218-275 | n rotations leave n + 1 epochs; all happen by the expiry fixed at creation and within the idle limit of the one before |
| Sessions.NoTokenIsRedeemedTwice | apps/api/app/auth/sessions.py:192-207 | two successful refreshes in a run never present the same token |
| Sessions.NoRotationAfterRevocation | apps/api/app/auth/sessions.py:218-243 | a session that was revoked never rotates again |
| Sessions.ReplayChangesNothing | apps/api/app/auth/sessions.py:192-207 | a consumed token is refused without touching any session |
| Sessions.RowsAfterARefresh | apps/api/app/auth/sessions.py:231-275 | what each outcome does to every session and epoch: one session and one epoch move on success, the user's unrevoked sessions on a replay after revocation, the one session on expiry |
| Sessions.SessionService.CreateSession | apps/api/app/auth/sessions.py:63-128 | session and first epoch together, with the expiry that remember-me selects; the token handed out is the one the next refresh needs |
| Sessions.SessionService.MarkConsumed | apps/api/app/repositories/auth.py:229-257 | consumes an epoch once |
| Sessions.SessionService.RefreshSession | apps/api/app/auth/sessions.py:130-291 | each outcome exactly for its reason, and what it changes in every session and epoch; success issues the session's only live token, and a refusal that does not persist changes nothing |
| Sessions.SessionService.LogOutEverywhere | apps/api/app/repositories/auth.py:124-148 | stamps exactly the user's sessions that are not revoked yet |
| Backfill.RestIsBeyondTheCursor | apps/workers/src/mip_workers/backfill.py:136-154 | beyond the last id of a prefix lies exactly the rest: keyset paging skips and repeats nothing |
| Backfill.CheckpointIsExact | apps/workers/src/mip_workers/backfill.py:73-95 | at every commit the messages dealt with are exactly the undeleted ones up to the cursor, and processed = embedded + skipped + failed counts them |
| Backfill.EmbeddingBackfillWorker.ProcessBatch | apps/workers/src/mip_workers/backfill.py:156-218 | what becomes of each message and every counter, for every reply of provider and index; only a transient provider error leaves the batch undone |
| Backfill.EmbeddingBackfillWorker.Run | apps/workers/src/mip_workers/backfill.py:56-112 | the checkpoint stays exact through failure, cancellation and death before or after any commit, and never goes back; a completed backfill dealt with every undeleted message when the batch size is positive, and with none when it is zero; an undisturbed run completes |
| Backfill.EmbeddingBackfillWorker.Attempts | apps/workers/src/mip_workers/backfill.py:56-95 | any number of failed, crashed and resumed runs that completes has dealt with every live message in order, each once; it completes if the last one is undisturbed and nobody cancelled |
| TimeWindows.WindowsMeanWhatTheySay | apps/api/app/search/nl_service.py:71-143 | each window holds exactly the instants its words mean by the calendar |
| TimeWindows.TranslationMeansWhatItSays | apps/api/app/search/nl_service.py:71-158 | for every intent a UTC instant is in the range exactly when on the local clock it is what the words mean; a part of the day cuts the first named day at its start and the last at its end, and so narrows a single day down to its hours |
| TimeWindows.LastEndsAsThisBegins | apps/api/app/search/nl_service.py:80-125 | the last day, week, month and year end one microsecond before this one starts |
| TimeWindows.ThisContainsNow | apps/api/app/search/nl_service.py:80-117 | every "this" range contains the present instant |
| TimeWindows.WeekdaysTileTheLastSevenDays | apps/api/app/search/nl_service.py:132-141 | the seven weekday windows tile the last seven days |
| TimeWindows.FromIsBeforeToIffDaysAreNotNegative | apps/api/app/search/nl_service.py:126-158 | the range is the right way round for every intent, period and offset if and only if no negative number of days is asked for |
| RateLimiting.StoredSetIsTheRecentHistory | apps/api/app/common/rate_limit.py:42-52 | the pruned and expiring set is the full history seen through the window |
| RateLimiting.NoWindowAdmitsMore | apps/api/app/common/rate_limit.py:54-60 | with distinct timestamps no window of the configured length admits more than the limit |
| RateLimiting.SimultaneousCallsCountOnce | apps/api/app/common/rate_limit.py:49-50 | any number of calls with one timestamp is admitted |
| RateLimiting.LimitHoldsIffTimesAreDistinct | apps/api/app/common/rate_limit.py:42-60 | the limit holds for every setting and every window if and only if no two calls share a timestamp |
| RateLimiting.RateLimiter.Check | apps/api/app/common/rate_limit.py:42-60 | admits a call exactly when the distinct recent times, rejected calls included, are within the limit |

## Left out

- One mail account and one tenant index: the provider's message id stands for the row id. Tenant isolation appears only as the worker's check.
- Rows come back from unordered SELECTs in any order; participants and folders are therefore bags and sets, in the tables and in the search document.
- Address normalisation is ASCII lower-casing and stripping; Unicode case folding and spaces are not modelled.
- Page transactions are serial. The reconciliation loads messages without a row lock (`sync_orchestrator.py:747`), and two pages that insert the same message race on a unique key; neither race is modelled.
- The outbox claim counts as durable when it is acquired; the source commits it just before the index write, so the model has more behaviours (a crash in between leaves an expired claim instead of none). The same holds for the restart's update, which the source commits with the next lease renewal.
- SyncOrchestrator.SyncFolder: claims exactness of a resync only for a restart and a final page within one run, because `resync_triggered` does not outlive the run.
- Convergence.IndexConverges: says nothing of messages whose latest event was dead-lettered or is still pending.
- Convergence.VectorsAreNeverStale: does not claim that a vector exists; DrainedRunHoldsTheVectorIff says when one does.
- EnqueueOrder.EnqueuePrecedesDone: an accepted write and a version conflict count as the same index write, as they do in the source.
- ORM identity-map effects, connection handling, SQL isolation anomalies, logging and metrics.
- Which worker runs a job and when: a job may run any number of times before it finishes, may fail, and its result may be forgotten, in any order. A document update that Elasticsearch applies after its client gave up may arrive at any time; a late vector update is a job that runs again.
- Index provisioning, HTTP status codes and error texts: an index reply is one of five kinds. The text sent to the embedding provider is its three input fields, without concatenation, whitespace folding or truncation.
- `account.status = "reauth_required"`, encryption, and deletion of the credential row.
- Hashing, token generation and JWTs: hashes are injective and tokens never repeat. The revocation time of an expired session is the time of the request.
- A cancellation of a backfill that comes after its last look at the row: COMPLETED or FAILED overwrites it, so it counts as none. A failing commit and the stored error message are not modelled.
- IANA time zones, daylight saving, the zone fallback table and dates before year 2.
- Scheduling of folder syncs, query understanding, participant resolution, search requests, the API, roles and policies, migrations and the web interface: not modelled.
- `time.time()` is exact, never negative and never goes back; a failing Redis admits every call and is not modelled.
