# Verified model of the Miraichi protocols and stores

This project models, in Dafny 4.11, the parts of the repository that protect data: leases and fences
around a last-good value, merges and prunes that must not lose data, and the algorithms below them.
`dafny verify dfyconfig.toml` checks everything.

What the source changes step by step is a class or a method with loops, proved against a specification
function; the properties are lemmas about that function or about every run of a state machine built
from it. Times are integers (milliseconds), points are integers (hundredths), a composite key is a pair,
and a JavaScript `Map` is the sequence of its entries in insertion order (`JsMap.dfy`).

| part | files |
|---|---|
| backup retention and its object store | `Calendar`, `BackupRetention`, `OwnerBackupStore`, `RetentionHistory` |
| canonical JSON and the encrypted envelope | `CanonicalJson`, `JsonParser`, `JsonFaithful`, `CorrectionChains`, `BackupPayload`, `BackupEnvelope`, `BackupCreation` |
| live refresh leases and tracked matches | `LiveRefreshStore`, `LiveRefreshProtocol`, `SportScoreSource`, `FotMobSource`, `TrackedMatches` |
| hosted match detail cache | `DetailCache`, `DetailCacheRuns`, `DetailCacheSafety` |
| provider refresh and publication | `ProviderStore`, `ProviderChain`, `ProviderRefresh`, `ProviderPlans`, `ProviderOutcomes`, `ProviderRuns`, `ProviderChecks`, `ProviderMoves` |
| serving store | `ServingMatches`, `ServingStore`, `ServingPartitions`, `ServingSegments` |
| detail refresh queue and file replacement | `StateFiles`, `RefreshQueue`, `RefreshQueueRuns`, `RefreshQueueLives` |
| detail merge | `MergeLists`, `DetailMerge` |
| bankroll ledger and owner backup | `Ledger`, `LedgerRuns`, `LedgerBackup`, `LedgerBackupRuns` |
| match feed projection | `LiveProjection` |
| deployment saga | `Deployment` |
| shared | `Options`, `JsMap`, `StableSort`, `Grouping`, `KeyedMerge` |

## What turned out to be conditional

- A live update is safe exactly when its write arrives before the lease runs out. With the in-memory
  adapter reading the completion clock and writing are one step; the hosted one compares the lease with
  the completion time that was sent, so a write delayed past the lease is accepted and can be
  overwritten unseen.
- The queue file is crash-safe exactly when the stored state is not in the backup only. That happens when
  the recovery rename of `readState` fails and its failure is swallowed; the detail store, which does not
  swallow it, is safe from every start.
- A settlement keeps balances and entries in step exactly when its entry names the account of its event,
  or moves nothing; the adapter does not compare the two.
- The canonical text is a function of the JSON value exactly when no two keys of one object that are not
  array indexes collate as equal.
- The competition files of the serving store are right exactly when no two competitions in use have the
  same path segments: one spelt "id-" and the hash of the other, or two with equal hashes.
- An item of the queue is tried more than `maxAttempts` times exactly when a try is started while it is not
  pending and has no attempts left: its lease ran out, or two workers listed it and both mark it.
- A failed or completed item of the queue stays so exactly when its attempts are used up, as long as no try
  is started before it is due and nobody defers it; otherwise one late report brings it back.
- A match is checked at most 45 times exactly when its kickoffs lie at most a day less 47 minutes apart.
- A settlement that corrects an unknown event is accepted and then blocks every backup of its owner.
- The projected feed is in feed order exactly when no match completed by an overlay stands before one that
  is still open or kicked off later.
- A queue operation that writes after a failed recovery rename, while the stored state is in the backup
  only, can lose that state; no other can, in any run.

## Model

| member | source | states |
|---|---|---|
| RetentionHistory.OnlineEqualsOffline | scripts/release/r2-owner-backup-store.ts:127-162 | over any history of uploads, in any order of time and with deletes cut short at will, the store lies between what one plan over the whole history keeps and the history; after a prune that completes it equals that plan |
| RetentionHistory.KeptExactly | scripts/release/r2-owner-backup-store.ts:139-164 | an object is kept exactly when it is the newest of its day and fewer than 30 days lie after that day, or the newest of its month and fewer than 12 months do; the smaller key wins at one instant |
| RetentionHistory.DeletesAreFinal | scripts/release/r2-owner-backup-store.ts:394-412 | an object that was deleted at some moment is kept by no later plan over the whole history |
| RetentionHistory.CompletedPutBounds | scripts/release/r2-owner-backup-store.ts:382-413 | a completed `put` leaves at most 41 objects and at most 10^9 bytes |
| BackupRetention.ReplanStable | scripts/release/r2-owner-backup-store.ts:143-161 | replanning any set between `keep` and the full set gives the same `keep` |
| BackupRetention.KeepBounded | scripts/release/r2-owner-backup-store.ts:148-158 | at most 41 objects are kept, as the newest one is kept on both counts, and a non-empty store keeps something |
| BackupRetention.ScanRetained | scripts/release/r2-owner-backup-store.ts:143-158 | the loop over the sorted objects retains exactly the newest object of each of the 30 latest days and 12 latest months |
| BackupRetention.PlanBackupRetention | scripts/release/r2-owner-backup-store.ts:127-162 | refuses exactly duplicate keys, future timestamps and malformed objects; otherwise `keep` and `remove` partition the objects, newest first, with the byte sum of `keep` |
| OwnerBackupStore.Store.Put | scripts/release/r2-owner-backup-store.ts:360-413 | which guard refuses, that a refusal stores nothing, that a stored object passed every guard, that the store never exceeds 100 objects, and that whatever call fails only removable objects are gone |
| OwnerBackupStore.Store.DeleteAll | scripts/release/r2-owner-backup-store.ts:412 | deletes the planned objects in order up to the first failing delete, and nothing else |
| OwnerBackupStore.Store.List | scripts/release/r2-owner-backup-store.ts:319-337 | lists every stored object once |
| Calendar.MonthIsCivil | scripts/release/r2-owner-backup-store.ts:145-147 | a day lies in a month exactly when it is one of its 28 to 31 days, months following one another with the Gregorian lengths and leap rule and January 1970 starting at day 0 |
| Calendar.MonthOfMonotone | scripts/release/r2-owner-backup-store.ts:145-147 | a later instant is never in an earlier UTC month, so the month scan may follow time order |
| JsonParser.ParseUndoesPrint | scripts/release/owner-backup-crypto.ts:62-76 | a JSON parser undoes the printer: it returns the value with keys in print order and undefined fields dropped, at every level |
| JsonFaithful.Faithful | scripts/release/owner-backup-crypto.ts:62-76 | two JavaScript values have the same text exactly when they are the same JSON value, given a collation that tells apart the keys of each object that are not array indexes |
| JsonFaithful.TextDeterminedIffSeparated | scripts/release/owner-backup-crypto.ts:70-73 | the text of a JavaScript value depends on its JSON meaning only, exactly when no two printed keys of one object that are not array indexes collate as equal |
| JsonFaithful.SameTextSameData | scripts/release/owner-backup-crypto.ts:62-76 | equal texts mean equal JSON values, whatever the collation |
| JsonFaithful.PrintNormal | scripts/release/owner-backup-crypto.ts:203-211 | printing what was parsed from a canonical text gives that text |
| BackupPayload.PayloadNormal | packages/shared/src/contracts/cloud-persistence-contracts.ts:218-303 | the canonical payload, which reorders collections and counts records anew, is the same text for a backup and for what is parsed from its text, and fails for both or for neither |
| BackupPayload.PayloadMeaning | packages/shared/src/contracts/cloud-persistence-contracts.ts:218-303 | read from the payload by name: each collection holds the records of the backup, ascending by its own id with ties in given order, the settlement events each follow the one they correct, and header and counts are those of the backup |
| BackupPayload.PayloadExistsIff | packages/shared/src/contracts/cloud-persistence-contracts.ts:190-216 | a backup whose settlement events have distinct ids is refused exactly when a correction leads to an unknown event or around in a circle |
| CorrectionChains.OrderSettlementEvents | packages/shared/src/contracts/cloud-persistence-contracts.ts:190-216 | the loop over the events visits each in turn, or stops at the first error |
| CorrectionChains.ArrangedMeaning | packages/shared/src/contracts/cloud-persistence-contracts.ts:190-216 | with distinct ids the depth-first walk succeeds exactly when every chain of corrections ends, and then rearranges the events so that each comes after the one it corrects |
| BackupEnvelope.CanonicalShaped | scripts/release/owner-backup-crypto.ts:111-118 | a backup that equals its canonical payload has the record counts of its collections, so the count check of decryption never refuses it |
| BackupCreation.CreatedIsCanonical | scripts/release/owner-backup-crypto.ts:111-118 | a backup that is created from a payload and its hash is its own canonical payload, when the collation tells the ids of its events apart |
| BackupCreation.CreatedEncrypts | scripts/release/owner-backup-crypto.ts:121-166 | encrypting such a backup succeeds under a 32-byte key and well-formed metadata, and the envelope carries the metadata of that very backup |
| BackupEnvelope.PrintSafe | scripts/release/owner-backup-crypto.ts:155-156 | a canonical text holds no lone surrogate, so UTF-8 carries it unchanged |
| BackupEnvelope.AadInjective | scripts/release/owner-backup-crypto.ts:99-109 | the additional authenticated data determines key id and metadata |
| BackupEnvelope.EnvelopeRoundTrip | scripts/release/owner-backup-crypto.ts:138-238 | decrypting what was encrypted gives the same backup |
| BackupEnvelope.EnvelopeBinding | scripts/release/owner-backup-crypto.ts:169-238 | an envelope that reuses nonce and sealed text of an honest one and still decrypts is that very envelope |
| BackupEnvelope.DecryptedIsEncryptable | scripts/release/owner-backup-crypto.ts:199-223 | what decrypts is a canonical backup that encrypting accepts under the same metadata |
| LiveRefreshStore.Adapter.AcquireLiveRefreshLease | apps/api/src/persistence/memory-cloud-persistence-adapter.ts:196-216 | grants a lease exactly when its times are in order, the cooldown of the last attempt is over and no lease runs; then the attempt is recorded, the last success kept, and no other owner changes |
| LiveRefreshStore.Adapter.FinishLiveRefresh | apps/api/src/persistence/memory-cloud-persistence-adapter.ts:217-240 | accepts exactly the current, unexpired lease with a valid snapshot; then the outcome, its time and error are recorded and only a success replaces the snapshot; anything else changes nothing |
| LiveRefreshStore.CheckSnapshot | apps/api/src/persistence/memory-cloud-persistence-adapter.ts:227-230 | accepts exactly snapshots with unique match ids and consistent counts |
| LiveRefreshProtocol.NoLostUpdate | apps/api/src/live/live-refresh-coordinator.ts:109-139 | when reading the completion clock and writing are one step, as with the in-memory adapter: in every interleaving each published snapshot was merged from the snapshot it replaced, and `generatedAt` strictly increases |
| LiveRefreshProtocol.TimelyRunsLoseNothing | apps/api/src/live/live-refresh-coordinator.ts:109-139 | for every delay between reading the completion clock and the write: no update is lost in any interleaving in which each accepted publication arrives before its lease runs out |
| LiveRefreshProtocol.SafeExactlyInTime | apps/api/src/live/live-refresh-coordinator.ts:216-219 | in every run that was timely so far, an accepted publication is safe from a coordinator around it exactly when it arrives before its lease runs out |
| LiveRefreshProtocol.LateCanBeLost | apps/api/src/live/live-refresh-coordinator.ts:216-219 | at every moment of every run, a publication accepted after its lease ran out is lost to a coordinator that read just before it |
| LiveRefreshProtocol.PublishedIncreasing | apps/api/src/live/live-refresh-coordinator.ts:109-139 | in every run, for every delay, published snapshots have strictly increasing times and the stored one is the last of them |
| LiveRefreshProtocol.SafeExactlyWithoutDelay | apps/api/src/live/live-refresh-coordinator.ts:216-219 | every run is free of lost updates exactly when reading the completion clock and writing are one step; an adapter that compares the lease with the time sent, as apps/api/src/persistence/supabase/supabase-cloud-persistence-adapter.ts:340 does, does not make them one |
| LiveRefreshProtocol.RaceLosesUpdate | apps/api/src/live/live-refresh-coordinator.ts:216-219 | the run in which a write that arrives after the lease ran out is overwritten unseen |
| LiveRefreshProtocol.GrantsApart | apps/api/src/persistence/memory-cloud-persistence-adapter.ts:196-216 | granted leases start at least 60 s apart, 15 min after an attempt that ended blocked, so their intervals are disjoint |
| LiveRefreshProtocol.GrantRate | apps/api/src/persistence/memory-cloud-persistence-adapter.ts:196-216 | W ms hold at most floor(W / 60000) + 1 grants |
| LiveRefreshProtocol.OnlyOwnedSuccessPublishes | apps/api/src/persistence/memory-cloud-persistence-adapter.ts:217-240 | a stale, expired or failed finish never changes the stored snapshot or `lastSuccessAt` |
| LiveRefreshProtocol.DeniedMeansOvertaken | apps/api/src/live/live-refresh-coordinator.ts:117-134 | a refresh that is not fresh gets the lease unless another coordinator changed the state it read |
| SportScoreSource.ReadSnapshot | apps/api/src/live/live-refresh-coordinator.ts:149-195 | blocked exactly when the check of a tracked match that has its turn is; otherwise the mapped matches come first as they are, every missing tracked match follows with the status, details and time of its check, or unchanged when that gave nothing or it had no turn among the first five, nothing else is published, and all counts are right |
| SportScoreSource.CheckTracked | apps/api/src/live/live-refresh-coordinator.ts:153-163 | checks the tracked matches one by one; an observed one gets the observed status, details and time, any other stays as it is, and only an access block stops the refresh |
| SportScoreSource.TrackedConserved | apps/api/src/live/live-refresh-coordinator.ts:149-193 | every tracked match that is not completed occurs exactly once in the next snapshot, the counts add up, and the snapshot is valid |
| FotMobSource.ReadSnapshot | apps/api/src/live/fotmob-daily-live-source.ts:10-41 | the next snapshot of the FotMob path, or the first error of its days in order |
| FotMobSource.CollectDays | apps/api/src/live/fotmob-daily-live-source.ts:16-28 | collects every day if each is answered and the listed records stay within two thousand; else the first day that is not stops it, with its error; the last day's entry for an id wins |
| FotMobSource.DatesCoverFourHours | apps/api/src/live/fotmob-daily-live-source.ts:11-13 | the days asked for are exactly those touched by the four hours up to now |
| FotMobSource.BoundedRetention | apps/api/src/live/fotmob-daily-live-source.ts:29-40 | the snapshot holds exactly the latest feed entry of each id and the tracked matches observed less than 10 min before; counts add up |
| TrackedMatches.TrackedUntilCompleted | apps/api/src/live/live-refresh-coordinator.ts:109-195 | in every run of concurrent coordinators whose publications arrive within their leases, a match that is not completed occurs exactly once in each later snapshot until one publishes it as completed |
| TrackedMatches.FotMobBounded | apps/api/src/live/fotmob-daily-live-source.ts:29-40 | in every such run no published entry is 10 min old, and a younger one is dropped only when completed |
| DetailCache.DetailStore.Read | apps/api/src/detail/hosted-match-detail-store.ts:27-37 | shows a detail exactly when a valid one is cached for the identity of the match row, its time only with it, and the fewest whole seconds up to a day after which the row admits another attempt |
| DetailCache.DetailStore.Acquire | apps/api/src/detail/hosted-match-detail-store.ts:38-69 | grants exactly when the provider is free, has budget left and a closed circuit, the match row is the one asked for and its cache row is free; a grant charges one request, claims both rows for 30 s and carries the etag of a matching cached detail; a denial claims nothing |
| DetailCache.DetailStore.Finish | apps/api/src/detail/hosted-match-detail-store.ts:70-111 | says for each result exactly when it is given; an accepted answer puts that detail, its identity, source and etag, the success time and the next attempt into the row, "not modified" keeps them, a failure keeps what was cached and sets the delays, and anything else changes no row |
| DetailCache.AcceptedIsShown | apps/api/src/detail/hosted-match-detail-store.ts:94-103 | a detail that was accepted is what every later read of the unchanged row shows, with the time it was stored |
| DetailCacheRuns.RequestsApart | apps/api/src/detail/hosted-match-detail-store.ts:38-87 | requests are 60 s apart per match and 1 s apart per provider, and none starts for 21600 s (FotMob) or 900 s (SportScore) after a recorded blocked failure |
| DetailCacheSafety.AtMostOneLive | apps/api/src/detail/hosted-match-detail-store.ts:47-65 | at most one live lease per provider and per match, in every run |
| DetailCacheSafety.DetailChangesOnlyByOwner | apps/api/src/detail/hosted-match-detail-store.ts:70-104 | stored detail changes only by a `modified` finish whose two leases are live and whose match row has the key it had at acquire |
| DetailCacheSafety.ReadShowsOwnIdentity | apps/api/src/detail/hosted-match-detail-store.ts:33-36 | a read never shows the detail of another match identity |
| DetailCacheSafety.EtagBelongsToDetail | apps/api/src/detail/hosted-match-detail-store.ts:66-67 | the etag of a conditional request came with the stored detail, from the same source and for the same match identity |
| DetailCacheSafety.DailyBudget | apps/api/src/detail/hosted-match-detail-store.ts:49-63 | at most 1000 requests per provider and UTC day |
| ProviderStore.HostedStore.Acquire | apps/api/src/refresh/hosted-provider-postgres-store.ts:13-26 | a lease is given exactly when none is held or the held one ran out, with the stored revision and state; a refusal changes nothing |
| ProviderStore.HostedStore.Finish | apps/api/src/refresh/hosted-provider-postgres-store.ts:50-91 | publishes exactly when the lease is held at the first and the last statement; then every merged match that is new or has another update time is stored with its own fields and the joined references, every other row stays, and a snapshot id is added exactly when a match was written; else nothing changes |
| ProviderStore.PriorReferencesKept | apps/api/src/refresh/hosted-provider-postgres-store.ts:66-72 | a written match keeps every prior source reference and every field the update does not set |
| ProviderChain.PublicationsChain | apps/api/src/refresh/hosted-provider-postgres-store.ts:50-91 | the state committed at revision r + 1 was computed from the state at revision r, over the matches published before |
| ProviderChain.AllOrNothing | apps/api/src/refresh/hosted-provider-postgres-store.ts:51-90 | an expired, replaced or already used lease writes nothing; any other publication writes everything and never collides with an earlier snapshot id |
| ProviderChain.LeasesDisjoint | apps/api/src/refresh/hosted-provider-postgres-store.ts:13-26 | a later lease starts after the earlier one published or after its 120 s |
| ProviderRefresh.RunCurrent | apps/api/src/refresh/hosted-provider-refresh.ts:87-121 | the loop over planned seasons with checkpoints, backoff and circuits |
| ProviderRefresh.RunTerminal | apps/api/src/refresh/hosted-provider-refresh.ts:153-206 | the loop over due days, with the contract upgrade before and pruning after |
| ProviderRefresh.PruneMatches | apps/api/src/refresh/hosted-provider-refresh.ts:210-212 | removes exactly the match checkpoints older than a day |
| ProviderRefresh.PruneDates | apps/api/src/refresh/hosted-provider-refresh.ts:213-215 | removes exactly the date checkpoints older than a day |
| ProviderOutcomes.SeasonOutcome | apps/api/src/refresh/hosted-provider-refresh.ts:100-120 | on distinct targets: which were asked, why the loop stopped and what it reports, and the checkpoint of every season afterwards: a success restarts the failures and keeps the sent etag unless a new one came, a failure counts one more and waits longer, and only a block opens a circuit |
| ProviderOutcomes.FailuresInARow | apps/api/src/refresh/hosted-provider-refresh.ts:112-118 | after n failures in a row n more are counted, the last success and its etag are kept, and the wait has doubled from 15 min up to 6 h |
| ProviderOutcomes.DayOutcome | apps/api/src/refresh/hosted-provider-refresh.ts:173-205 | on distinct days: which were asked, why the loop stopped, and the checkpoint of every date and match afterwards; nothing else changes |
| ProviderOutcomes.UpgradeLeaves | apps/api/src/refresh/hosted-provider-refresh.ts:159-170 | the contract upgrade forgets exactly the etags and the attempts of unfinished matches of the base |
| ProviderOutcomes.PruneLeaves | apps/api/src/refresh/hosted-provider-refresh.ts:208-216 | pruning removes exactly the checkpoints whose end or next time is more than a day past |
| ProviderRuns.RequestsRespectCheckpoints | apps/api/src/refresh/hosted-provider-refresh.ts:87-206 | over every sequence of planned runs with failing publications: no request to a source for 6 h after a committed block, and none repeats its key before its delay: the backoff of a failure, 2 min for a day, a day for a season |
| ProviderPlans.PlanSeasonBatch | apps/worker/src/sources/hydration/season-hydration-plan.ts:81-195 | the planned seasons are distinct, at most the cap, and each is neither backing off nor refreshed within a day |
| ProviderPlans.SeasonPlanMeaning | apps/worker/src/sources/hydration/season-hydration-plan.ts:105-195 | the plan is a first part of the due seasons, cut only at the cap or before one that backs off; the tier counts as blocked exactly when the first due one backs off |
| ProviderPlans.DueSeasons | apps/worker/src/sources/hydration/season-hydration-plan.ts:105-178 | the due seasons are exactly those of usable entries without a success within a day, each with the etag of its last success |
| ProviderPlans.BuildTerminalPlan | apps/worker/src/sources/fotmob/fotmob-terminal-plan.ts:29-105 | the one-pass loop plans, for distinct dates that may be asked, exactly the due matches of each, and gives up exactly the watched matches out of checks or time |
| ProviderPlans.DayPlanMeaning | apps/worker/src/sources/fotmob/fotmob-terminal-plan.ts:61-105 | only dates after all planned ones are left out, and only when the plan is full |
| ProviderPlans.DayOrder | apps/worker/src/sources/fotmob/fotmob-terminal-plan.ts:55-86 | the matches of every planned day stand by kickoff, and by id within one kickoff |
| ProviderPlans.DayEtags | apps/worker/src/sources/fotmob/fotmob-terminal-plan.ts:94-103 | every planned day is asked with the etag stored for its date |
| ProviderChecks.ChecksBounded | apps/worker/src/sources/fotmob/fotmob-terminal-plan.ts:61-92 | from any stored state, over every sequence of refreshes with failures, failed publications, pruning and the contract upgrade: a match whose kickoffs lie at most a day less 47 min apart is checked with success at most 45 times; it is asked for only from 105 min after the first kickoff to 240 min after the last |
| ProviderMoves.ChecksBoundedIff | apps/api/src/refresh/hosted-provider-refresh.ts:153-216 | the bound of 45 checks holds exactly up to that distance: beyond it the checkpoint can be pruned in between, and a run with 46 checks is given |
| ProviderChecks.EarlyIff | apps/worker/src/sources/fotmob/fotmob-terminal-plan.ts:75-78 | a match is asked for before 105 min after its kickoff exactly when a check stored for an earlier kickoff is due |
| ProviderRuns.RunBounded | apps/api/src/refresh/hosted-provider-refresh.ts:100-120 | a run asks at most its planned targets and stops at the first failure |
| ServingMatches.DedupeSourceRefs | apps/api/src/repositories/serving-match-store.ts:393-411 | the Map loop and sort compute the specification of deduplication |
| ServingMatches.DedupeMeaning | apps/api/src/repositories/serving-match-store.ts:393-411 | exactly the newest reference of every key is kept, in order |
| ServingMatches.DedupeAbsorbs | apps/api/src/repositories/serving-match-store.ts:393-411 | deduplicating either part of a list first makes no difference |
| ServingMatches.NormalizeAndValidateMatches | apps/api/src/repositories/serving-match-store.ts:362-383 | rejects at the first invalid match, else the normalized list |
| ServingMatches.NormalizeMeaning | apps/api/src/repositories/serving-match-store.ts:369-382 | for every id its latest version with all its references and nothing else, in storage order |
| ServingMatches.NormalizeAbsorbs | apps/api/src/repositories/serving-match-store.ts:362-383 | normalize(normalize(a) ++ b) = normalize(a ++ b) = normalize(a ++ normalize(b)) |
| Grouping.GroupMatches | apps/api/src/repositories/serving-match-store.ts:413-422 | the grouping loop computes its specification |
| Grouping.GroupIsFilter | apps/api/src/repositories/serving-match-store.ts:413-422 | a group holds exactly the elements of its key, in order |
| ServingStore.ServingRoot.Build | apps/api/src/repositories/serving-match-store.ts:109-213 | a build of valid matches into a new version whose file operations work succeeds and publishes the complete version; one that fails or dies anywhere leaves manifest and earlier versions as they were, so the earlier snapshot reads as before |
| ServingPartitions.RoundTrip | apps/api/src/repositories/serving-match-store.ts:109-246 | reading a built store returns the normalized input |
| ServingPartitions.DaysCover | apps/api/src/repositories/serving-match-store.ts:121-151 | the day partitions, one after the other, are the list itself |
| ServingPartitions.CompetitionsCoverIffInjective | apps/api/src/repositories/serving-match-store.ts:153-165 | for any naming of path segments, every competition has a file with exactly its matches exactly when no two competitions in use share a path |
| ServingSegments.CompetitionFilesIff | apps/api/src/repositories/serving-match-store.ts:489-494 | for any hash: the competition files are right exactly when no two competitions in use have the same segments, by an id or season that is spelt like the hash of the other one or by equal hashes |
| ServingSegments.AliasMixes | apps/api/src/repositories/serving-match-store.ts:489-494 | for every name spelt like the hash of an unsafe one there are two valid matches whose competitions get one file between them |
| ServingPartitions.IndexAgrees | apps/api/src/repositories/serving-match-store.ts:167-177 | every index entry names the partition that holds the id, and every id has an entry |
| StateFiles.QueueFiles.ReadState | apps/api/src/repositories/match-detail-refresh-queue.ts:715-769 | main file, backup and recovery rename, with a swallowed rename failure |
| StateFiles.QueueFiles.WriteState | apps/api/src/repositories/match-detail-refresh-queue.ts:779-821 | the replacement through a temporary file and a backup, for every fate of every operation |
| StateFiles.WorkingWriteReturns | apps/api/src/repositories/match-detail-refresh-queue.ts:779-821 | a replacement in which every operation works returns, also by the way over the backup, which then is gone |
| StateFiles.CrashSafeIff | apps/api/src/repositories/match-detail-refresh-queue.ts:715-821 | return gives the new state, throw the old, an end of the process one of the two, exactly when the next read does not depend on the backup |
| StateFiles.OperationAtomicIff | apps/api/src/repositories/match-detail-refresh-queue.ts:715-821 | a whole read-modify-write is atomic for every fate of its operations, exactly unless it writes while the stored state is in the backup only and the recovery rename failed |
| StateFiles.RunExplained | apps/api/src/repositories/match-detail-refresh-queue.ts:615-821 | any run of failing and interrupted operations ends in a state their outcomes explain, unless one writes after a failed recovery rename while the stored state is in the backup only |
| StateFiles.UpsertCrashSafe | apps/api/src/repositories/local-match-detail-store.ts:106-173 | replacing a detail file is crash-safe from every start |
| RefreshQueue.Queue.EnqueueItem | apps/api/src/repositories/match-detail-refresh-queue.ts:256-316 | a new item is pending and due, a due deferral starts over with all attempts, any other item and every other id is untouched |
| RefreshQueue.Queue.GetDueItems | apps/api/src/repositories/match-detail-refresh-queue.ts:318-354 | at most `limit` distinct stored items, each due, in (time, id) order; a due item is left out only when the limit is reached, and comes after all of them |
| RefreshQueue.Queue.MarkProcessing | apps/api/src/repositories/match-detail-refresh-queue.ts:356-390 | every listed stored item starts a try: one attempt more, its time, a visibility lease and no error; nothing else changes |
| RefreshQueue.Queue.MarkCompleted | apps/api/src/repositories/match-detail-refresh-queue.ts:392-423 | every listed stored item is completed without error and keeps its attempts; nothing else changes |
| RefreshQueue.Queue.MarkDeferred | apps/api/src/repositories/match-detail-refresh-queue.ts:425-480 | every listed stored item is deferred, with the reason and the time if given; nothing else changes |
| RefreshQueue.Queue.MarkFailed | apps/api/src/repositories/match-detail-refresh-queue.ts:482-551 | every listed stored item gets the error and the time if given, and fails for good exactly when told so or its attempts are used up; nothing else changes |
| RefreshQueue.Queue.PruneCompleted | apps/api/src/repositories/match-detail-refresh-queue.ts:562-592 | removes exactly the completed items at or before the cutoff and counts them |
| RefreshQueueRuns.MarkedBatchLeaves | apps/api/src/repositories/match-detail-refresh-queue.ts:318-390 | after a batch was marked, what is due is what was due without the batch |
| RefreshQueueRuns.RoundsVisitAll | apps/api/src/repositories/match-detail-refresh-queue.ts:318-390 | rounds of getting and marking visit every due item exactly once in order, in ceil(n / limit) rounds |
| RefreshQueueRuns.RoundsAreCeiling | apps/api/src/repositories/match-detail-refresh-queue.ts:318-353 | the number of rounds is n / limit rounded up |
| RefreshQueueLives.QueueIsLives | apps/api/src/repositories/match-detail-refresh-queue.ts:256-592 | after any calls of any workers on an empty queue, repeated ids included, every item stands where the events of that item lead |
| RefreshQueueLives.QueueCountsTries | apps/api/src/repositories/match-detail-refresh-queue.ts:356-390 | after any calls the stored attempts of an item are its tries since it was last renewed; they exceed `maxAttempts` exactly when a superfluous try was started |
| RefreshQueueLives.TriesBounded | apps/api/src/repositories/match-detail-refresh-queue.ts:356-551 | whoever marks it and when: an item is tried at most `maxAttempts` times, plus once for every try started while it was not pending |
| RefreshQueueLives.TriesExceedIff | apps/api/src/repositories/match-detail-refresh-queue.ts:356-390 | an item gets more than `maxAttempts` tries exactly when a try is started while it is not pending and has no attempts left; `markProcessing` tests neither |
| RefreshQueueLives.BoundIsReached | apps/api/src/repositories/match-detail-refresh-queue.ts:318-390 | that bound is reached for every limit and every number of such tries, by workers that listed the item together as well as by leases that run out one after the other |
| RefreshQueueLives.GuardedSpends | apps/api/src/repositories/match-detail-refresh-queue.ts:330-341 | when tries are started on due items only, a superfluous one is of an item whose lease or deferral ran out |
| RefreshQueueLives.GetAndMarkIsGuarded | apps/api/src/repositories/match-detail-refresh-queue.ts:318-390 | marking what was just listed, with no call in between, starts tries of due items only |
| RefreshQueueLives.SettledForGoodIff | apps/api/src/repositories/match-detail-refresh-queue.ts:392-551 | a failed or completed item stays so under late reports, enqueueing and due starts exactly when its attempts are used up; with attempts left one late report makes it pending again |
| RefreshQueueLives.LateMarks | apps/api/src/repositories/match-detail-refresh-queue.ts:356-480 | a late start or deferral brings back every failed or completed item, after a deferral with all attempts |
| RefreshQueueLives.LastFailureIsFinal | apps/api/src/repositories/match-detail-refresh-queue.ts:531-541 | a report of failure on an item without attempts left is final, whatever came before, if tries are started on due items only and no deferral follows |
| MergeLists.MergeTeamStatsLoop | apps/api/src/repositories/local-match-detail-store.ts:353-408 | the Map loop over team statistics computes its specification |
| MergeLists.TeamStatsMeaning | apps/api/src/repositories/local-match-detail-store.ts:353-408 | the merged statistics hold exactly the teams of both lists, joined, primary values winning |
| MergeLists.MergeEventsLoop | apps/api/src/repositories/local-match-detail-store.ts:450-471 | the Map loop over events computes its specification |
| MergeLists.EventsMeaning | apps/api/src/repositories/local-match-detail-store.ts:450-471 | complete coverage replaces the events; otherwise each key of either list keeps its last event, the primary winning |
| MergeLists.EventsAgain | apps/api/src/repositories/local-match-detail-store.ts:450-471 | merging the same events again changes nothing |
| MergeLists.LineupsMeaning | apps/api/src/repositories/local-match-detail-store.ts:420-448 | the primary lineups, their gaps filled from the last lineup of the team exactly where the primary side calls its lineups incomplete |
| MergeLists.WarningsAgain | apps/api/src/repositories/local-match-detail-store.ts:473-497 | merging the same warnings again gives the same set |
| DetailMerge.MergeKnows | apps/api/src/repositories/local-match-detail-store.ts:226-408 | a score or statistic is known after the merge exactly when either side knows it, and which side wins |
| DetailMerge.MergeTakes | apps/api/src/repositories/local-match-detail-store.ts:226-284 | the newer version leads: its status is taken, except that a completed match is not reopened and then keeps its own match data; every optional field, the referee, the references, events, lineups, warnings and notes come from the side that this names |
| DetailMerge.UpdatesKeep | apps/api/src/repositories/local-match-detail-store.ts:226-284 | over any sequence of updates: the largest `updatedAt`, completed stays, and a number is known exactly when some version knew it |
| DetailMerge.CompletedForGood | apps/api/src/repositories/local-match-detail-store.ts:226-284 | once completed, completed under whatever updates follow |
| DetailMerge.ReapplyChangesNothing | apps/api/src/repositories/local-match-detail-store.ts:226-330 | applying the same newer-or-equal update again changes nothing but the order of warnings |
| LedgerRuns.CloudAdapter.CreateBankrollAccount | apps/api/src/persistence/memory-cloud-persistence-adapter.ts:135-141 | opens an account exactly for a positive opening under a new id, with that balance; every other account stays |
| LedgerRuns.CloudAdapter.CreateBankrollLedgerEntry | apps/api/src/persistence/memory-cloud-persistence-adapter.ts:149-162 | books exactly when sign, amount and id are right and the account is open and not overdrawn by a withdrawal; then the entry stands under its id, the account changed by its amount, and nothing else changed |
| LedgerRuns.CloudAdapter.CreateBankrollTransfer | apps/api/src/persistence/memory-cloud-persistence-adapter.ts:164-180 | moves exactly a positive amount between two open accounts, the first of which has it, under a new id; then both balances, both entries and nothing else changed |
| LedgerRuns.CloudAdapter.ApplyBetSettlement | apps/api/src/persistence/memory-cloud-persistence-adapter.ts:108-133 | carried out exactly for a new event of an open bet or a correction, with account and new entry: record, event, entry and credited account then stand under their keys and every other key is as before; a stored event is replayed from the tables; anything else changes nothing |
| LedgerRuns.CloudAdapter.UpdateBankrollAccount | apps/api/src/persistence/memory-cloud-persistence-adapter.ts:143-148 | changes title and archived flag of an existing account as asked and keeps every other field and account |
| LedgerRuns.EveryRunBalanced | apps/api/src/persistence/memory-cloud-persistence-adapter.ts:108-180 | in every run whose settlements book on the account they credit, each balance is the opening plus the sum of its entries |
| Ledger.SettlementKeepsIff | apps/api/src/persistence/memory-cloud-persistence-adapter.ts:120-133 | a settlement keeps the balances right exactly when its entry names the account of its event, or moves nothing |
| Ledger.TransferMoves | apps/api/src/persistence/memory-cloud-persistence-adapter.ts:164-180 | a transfer takes its amount from one account, gives it to the other, touches no third and books one entry on each side |
| Ledger.TransferKeeps | apps/api/src/persistence/memory-cloud-persistence-adapter.ts:164-180 | a transfer keeps the total and the balances |
| LedgerRuns.SettledOnce | apps/api/src/persistence/memory-cloud-persistence-adapter.ts:108-119 | replaying a settlement after any further operations changes nothing and answers with the stored event |
| LedgerRuns.ClosedBetRefuses | apps/api/src/persistence/memory-cloud-persistence-adapter.ts:120-125 | a bet that a settlement closed takes no other event without a correction, after any operations that do not reopen it |
| LedgerRuns.NeverOverdrawn | apps/api/src/persistence/memory-cloud-persistence-adapter.ts:149-176 | after a manual withdrawal or a transfer the paying balance is not negative, and neither booked on an archived account |
| LedgerBackup.BackupAdapter.ExportOwnerData | apps/api/src/persistence/memory-cloud-persistence-adapter.ts:241-259 | an export holds each record of its owner as often as it is stored and none of another owner, each settlement event after the one it corrects; from a sound store it imports into an empty adapter, whose export is the same envelope |
| LedgerBackup.BackupAdapter.ImportOwnerData | apps/api/src/persistence/memory-cloud-persistence-adapter.ts:260-284 | refuses a wrong owner, a bad hash and stored ids without a change; else every record stands under its owner and id, a config gets a first day of the week, and every other key of every table is as before |
| LedgerBackup.BackupRoundTrip | apps/api/src/persistence/memory-cloud-persistence-adapter.ts:241-284 | export, import into an empty adapter and export again gives the same envelope, from a store whose records lie under their own ids |
| LedgerBackup.ExportRefusedIff | apps/api/src/persistence/memory-cloud-persistence-adapter.ts:241-259 | the backup of such a store is refused exactly when a chain of corrections does not end or the rest of the boundary check refuses |
| LedgerBackup.UnknownCorrectionRefuses | apps/api/src/persistence/memory-cloud-persistence-adapter.ts:108-133 | a settlement that corrects an event the owner does not have, which is not checked when it is applied, blocks every later backup of the owner until that event exists |
| LedgerBackupRuns.EveryRunSound | apps/api/src/persistence/memory-cloud-persistence-adapter.ts:57-284 | every run from a new adapter, bookings, drafts, configs and imports of any version included, keeps each record under its own id |
| LedgerBackupRuns.BackupOfEveryRun | apps/api/src/persistence/memory-cloud-persistence-adapter.ts:241-284 | the round trip of the backup holds after every such run |
| LiveProjection.ListBase | apps/api/src/repositories/serving-match-store-repository.ts:65-88 | holds every match as often as it is stored if the query asks for it and not otherwise, open matches by kickoff, then completed ones latest first, ties in stored order |
| LiveProjection.FeedOrder | apps/api/src/repositories/serving-match-store-repository.ts:30-46 | open matches by kickoff, then completed ones latest first, and only what the query asks for |
| LiveProjection.FilterPushdown | apps/api/src/repositories/terminal-live-projection-repository.ts:45-75 | listing with a status is listing without it and filtering afterwards, as sequences, for every query, list and overlay set |
| LiveProjection.FeedShows | apps/api/src/repositories/terminal-live-projection-repository.ts:20-75 | with unique overlays the feed shows exactly the stored matches of the asked day and competition, each with score, time and references of the overlay that completes it or as it is, if that has the asked status |
| LiveProjection.ListInOrderIff | apps/api/src/repositories/terminal-live-projection-repository.ts:45-75 | the projected feed is in feed order exactly when no match completed by an overlay stands before one that is still open or kicked off later |
| LiveProjection.ListAgreesWithFind | apps/api/src/repositories/terminal-live-projection-repository.ts:45-86 | with unique ids the feed shows exactly the matches that looking up each id shows |
| StableSort.FilterSort | apps/api/src/repositories/serving-match-store-repository.ts:78-82 | a stable sort commutes with filtering |
| Deployment.Release.RunDeployment | scripts/release/deployment-runtime.ts:91-201 | result, calls and system after a run, for every fate of every operation |
| Deployment.DoneOrCompensated | scripts/release/deployment-runtime.ts:112-179 | a run does all stages in order, or attempts exactly the compensations whose stage was attempted |
| Deployment.CallsInOrder | scripts/release/deployment-runtime.ts:112-194 | operations are called in one fixed order, each at most once, compensations last stage first |
| Deployment.BackupBeforeMigrations | scripts/release/deployment-runtime.ts:113-128 | no migration is applied before a dry run and, where owner data must be backed up, a backup succeeded |
| Deployment.FailedRunRestores | scripts/release/deployment-runtime.ts:163-179 | when no compensation fails, edge and worker are at the prior versions and an attempted scheduler is paused |
| Deployment.SuccessfulRunDeploys | scripts/release/deployment-runtime.ts:112-161 | a run that succeeds leaves the new edge and worker versions deployed and the scheduler running |
| Deployment.FailureNamed | scripts/release/deployment-runtime.ts:163-194 | a failed run names the first stage that does not pass, with its own code where it throws one, and the stages completed before it |

## Left out

- Network clients, HTTP routes, the web shell, command lines and SQL text: plumbing. What a remote call, a provider or the clock answers is a parameter; a database transaction is one step whose statements each read a clock that does not go backwards.
- Adapters that map provider payloads (`adaptSportScoreLiveRecords`, `adaptFotMobDailyLive`, `adaptFotMobSeason` and their kind): their results are parameters; what the merge needs of them (unique ids, stamped with the observation) is stated as a hypothesis.
- Resolving a registry entry to its season (`resolveCompetitionSeason`), the hydration mode of the season planner and `mergeCanonicalWarehouseSnapshots`: parameters, or not used by the hosted refresh.
- Real cryptography: AES-GCM, UTF-8 and base64 are functions assumed to be inverse and injective where `BackupEnvelope.Ideal` says so; of SHA-256 only the shape of its digest is assumed, and collisions are allowed for.
- Floating point and number formatting: numbers are integers; numbers of 10^21 and more, which `JSON.stringify` prints in exponent form, are not modelled apart.
- `localeCompare`: an assumed total order given by ranks, or a total preorder where ties matter (canonical JSON keys).
- ISO syntax of timestamps: they are integers; an unparsable timestamp is not modelled.
- Composite string keys such as `owner:id` and `source|match|url`: pairs, so a separator inside an id cannot make two keys collide or an owner be a prefix of another.
- Validation of single fields (`validateLocalMatch`, `validateLocalMatchDetail`, safe ids, regular expressions): one verdict per record.
- The parser of `JsonParser`: accepts canonical texts only (no insignificant whitespace, integers only), which is what undoing the printer needs.
- Warnings of live snapshots, `summarizeCompetitions`, snapshot status and freshness labels: derived reports without a property of their own.
- The cross-process lock file of the queue: an operation of the queue is one step under the lock.
- Path containment checks and symbolic links of the serving store and detail store.
- DetailCache.DetailStore.Acquire: the circuit that the request guard keeps in other tables is a parameter; the bound after a blocked failure is the one the control row enforces by itself. Match rows are inserted and updated but not deleted, as nothing in the repository deletes them.
- DetailMerge.MergeKnows: team ids are unique within one list of statistics; with duplicates a later entry of a team takes no part in the join.
- LiveRefreshProtocol.NoLostUpdate: about runs in which a completion is written at the moment its clock is read; `TimelyRunsLoseNothing` and `SafeExactlyInTime` say what holds otherwise. One owner; owners do not share state, as the frames of the adapter methods show.
- LedgerBackup.BackupRoundTrip: the referential checks of the envelope between bets, accounts, entries and events are part of the seal, a parameter; unique ids and correction chains are modelled.
- ProviderChecks.ChecksBounded: a match occurs at most once in the base of a run, as its id is a primary key of the store.
- Discipline challenges, bet drafts beyond backup, backup receipts, match snapshots and manual review marks of the persistence adapter: single map updates.
