# Verified models of the monitoring panel and its agent

This project models eight parts of a server-monitoring panel, its agents and its deployment script, each the part
with the most state or the most delicate arithmetic, and proves what those parts promise. `dafny verify dfyconfig.toml`
checks everything.

Code that changes state is modelled by classes and methods with the fields and the steps of the original; what a method
promises is stated as an invariant of the object, or through a function of its old state, and the lemmas then say what
that means. Where the outside world interferes, its behaviour is an argument that every contract quantifies over:
a *script* says which file operation works, fails or is cut short by a crash, and a list of *events* says in which
order the parts act and which messages arrive, late, twice or never. A method whose contract holds for every script,
and whose outcome "died" or "killed" marks the step at which it was cut short, describes every crash point at once.

| Part | Files | Main results |
|---|---|---|
| Crash-safe restore of a backup | `Restore.dfy` | `LiveOn`, `Live`, `Recover`, `Publish`, `SomeScriptLoses` |
| Journaled upgrade | `Upgrade.dfy` | `Run`, `UpgradeThenBoot`, `UpgradeTo`, `RecoverPending` |
| Usage pipeline: collector, relay, panel | `Collector.dfy`, `CollectorRuns.dfy`, `Panel.dfy`, `Samples.dfy`, `Pipeline.dfy` | `NothingIsLost`, `NothingIsStoredTwice`, `Ingest`, `Maintain`, `RunTicks`, `SampleReports`, `FoldIsBooked` |
| Coverage proofs over samples | `Coverage.dfy`, `TrendBuckets.dfy` | `CoveredAverageBy`, `LiveWindow`, `TrendCoverage`, `ObservedOutputAverage`, `IndexAgreesExactly`, `CoveredDayMeans`, `OneToleranceExactly` |
| Edit distance and masking | `EditDistance.dfy`, `Masking.dfy` | `Levenshtein`, `DistanceIsLeastCost`, `TriangleInequality`, `DataMasking`, `HiddenRunesDoNotShow` |
| Prefix groups under longest match | `PrefixGroups.dfy` | `ResolvePrefixGroups`, `ResolvedOwner` |
| Monthly reset and traffic accounting | `ResetClock.dfy`, `TrafficStatic.dfy` | `LastResetIsGreatest`, `CycleAgreesWithReset`, `FlushKeepsTotalSinceReset`, `Run` |
| Versioned settings delivery | `RuntimeConfig.dfy`, `ConfigDelivery.dfy` | `AppliedIsEarned` (kept by every step of `Delivery`), `Run`, `Deliver` |

## Where the code does less than it says

The proofs found these places. Each has an input that shows it and a condition that says exactly when the promise holds.

- **Restore.** Unlinking a marker may fail, and then the code only logs it. A commit marker that is left over makes the
  next publication unsafe until its verdict: `LeftOverMarkerLosesData` runs such a history to the loss of the committed
  data. What a caller can look at beforehand is `Risky`: both markers lie there, the script lets everything but the last
  unlink work, and a valid backup waits. `Live` and `LiveOn` lose nothing unless a life is risky, and every risky life has
  a continuation that loses the data. With the marker left over, `Publish` loses it for some script if and only if a valid
  backup waits (`SomeScriptLoses`), even if the backup holds the very data: the process may die between the renames.
- **Upgrade.** If the write of the `committed` record raises after the record has reached the disk, the exception handler
  rolls back under a closed journal, and if that rollback is cut short with the data moved away, the next boot starts the
  panel without its data. `Exposing` says for which scripts; `UpgradeTo` and `UpgradeThenBoot` are safe exactly for the
  others, `Run` when no upgrade meets one, and `CommitRaisesLate` exhibits one. `RollbackUnderClosedJournal` shows the
  same for a rollback by hand.
- **Settings on the agent.** A message that the network statistics refuse is reported as failed and leaves the settings
  alone, but the helper's switch and the reset day have been set by then: `Apply` says exactly when, and
  `RefusedHalfway` is an instance.
- **Traffic cycle.** `CycleAgreesWithReset` gives the exact days on which the panel's cycle and the agent's reset
  disagree; `CycleInTheFuture` is 29 March of a common year.
- **Settings delivery.** The panel closes a delivery when an agent reports equal settings, but compares everything except
  the reset day, for which it believes its own column: `MatchForgivesTheDay`, `MatchIsEqualityUpToTheDay` and, as an
  example, `WrongDayIsBelieved`. The claim proved for all runs is therefore "some report was equal apart from the reset day".
- **Daily coverage.** Two buckets may each miss up to one tolerance at their common edge, so a covered day guarantees
  twice the tolerance: `CoveredDayIsProven`, and `TwiceTheTolerance` for an input that needs it. One tolerance holds
  exactly if at each edge inside the day the last covered tick before it and the first one after it are close enough:
  `OneToleranceExactly`.
- **Trend buckets.** A range that ends within the sliver after a bucket's edge loses its last ticks (`SliverIsDropped`),
  and `RangeIsKept` says that no other range does, the first bucket excepted. A row that ends there is missing from the
  bucket's index (`IndexMissesSlivers`); `IndexAgreesExactly` says when the bucket's verdict suffers from it.
- **Traffic flush.** A cached record newer than the flush time is filed under the flush. That keeps the total since the
  reset the flush splits at, and loses the record for exactly the resets between the flush and the record:
  `NewerThanFlush`, and `FlushKeepsTotalSinceReset` for a whole cache and every reset.
- **Dedup ledger.** What expiry forgets is refused for a clock that does not fall back, and some of it is accepted again
  exactly if the clock falls back by a second: `ForgottenIsRefused`, `ForgottenReturnsExactly`, `ClockMustNotFallBack`.

## Model

| member | source | states |
|---|---|---|
| Restore.Volume.RemoveMarkers | backend/database/dbcore/dbcore.go:278-284 | the journal goes before the commit marker; a failed unlink is survived and may leave the marker behind |
| Restore.Volume.Recover | backend/database/dbcore/dbcore.go:309-390 | from every recoverable volume: stays recoverable at each crash point, never meets "neither active nor previous data", and on completion the last committed data is active |
| Restore.Volume.FinishCommitted | backend/database/dbcore/dbcore.go:328-337 | cleaning up a committed restore keeps the committed data active and removes exactly the previous and staging trees |
| Restore.Volume.PutBack | backend/database/dbcore/dbcore.go:356-389 | the previous data returns to its place, whatever is interrupted |
| Restore.Volume.ClearUp | backend/database/dbcore/dbcore.go:378-387 | once the previous data is back, failures of the clean-up are survived and never touch it |
| Restore.Volume.BuildStage | backend/database/dbcore/dbcore.go:462-525 | staging leaves the active data alone and stages only a valid archive; a previous tree of an earlier restore, which the new journal does not name, leaves the model |
| Restore.Volume.Publish | backend/database/dbcore/dbcore.go:450-549 | without a left-over commit marker publishing keeps the volume recoverable at every step; with one it does exactly unless a valid backup waits and the script goes as far as moving the data aside and not back |
| Restore.SomeScriptLoses | backend/database/dbcore/dbcore.go:527-531 | such a script exists if and only if a valid backup waits |
| Restore.Volume.Swap | backend/database/dbcore/dbcore.go:527-548 | the two renames, their undoing, and every crash between them keep the old data reachable |
| Restore.Volume.Commit | backend/database/dbcore/dbcore.go:392-412 | the data to recover becomes the restored data at the write of the commit marker and at no other step |
| Restore.Volume.Rollback | backend/database/dbcore/dbcore.go:414-448 | the old data returns, or the volume stays recoverable to it |
| Restore.Live | backend/database/dbcore/dbcore.go:690-750 | one life of the process, cut short anywhere, keeps the volume recoverable unless both markers are left, the script slips at the last unlink and a valid backup waits; such a life goes on to lose the data under a script that ends between the renames; the goal changes, and a commit marker appears, only by a panel that started up with a valid backup; undisturbed a life ends with the verdict's data active and no markers, and after a single failed operation a started panel still has the committed data; the state it began with goes on record |
| Restore.PublishAndJudge | backend/database/dbcore/dbcore.go:450-549 | the same for the part of a life behind its recovery, told by the commit marker alone |
| Restore.LiveOn | backend/database/dbcore/dbcore.go:309-549 | after any number of disturbed lives a completed recovery leaves the last committed data in full, unless one of them began risky, where the states they began with are on record and each follows from the one before by one life; none is risky when unlinking is reliable, or when no life both slips and has a valid backup |
| Restore.LeftOverMarkerLosesData | backend/database/dbcore/dbcore.go:278-284 | a concrete history in which a failed unlink costs the committed data |
| Upgrade.Host.Save | deploy/safe_upgrade.py:274-276 | a record that fits the host makes the journal tell the truth exactly when it reaches the disk, whether or not the write raises |
| Upgrade.Host.Turn | deploy/safe_upgrade.py:291-295 | between two actions the panel may die and be restarted; with the service not stopped, under a closed journal or at starting and rollback_starting under a live coordinator, it is up exactly if no death comes after its last restart, and otherwise it stays down once it has died; what runs runs on its own data |
| Upgrade.UpOrDown | deploy/safe_upgrade.py:291-295 | a panel that may be restarted comes back after its last death, in the version that is installed, and one that may not stays down |
| Upgrade.Host.Displace | deploy/safe_upgrade.py:511-514 | moving the data away is safe exactly when the journal is open |
| Upgrade.Host.Restore | deploy/safe_upgrade.py:507-543 | from an open journal, or the record committed, the old version and the old data come back exactly when every action works; under an open journal the host is safe at every step, under the record committed exactly unless the script cuts the rollback short behind the move of the data; one fault after the move is recorded as rollback_failed; when it is done the old version runs unless a death after its start went without a restart |
| Upgrade.Host.Reinstall | deploy/safe_upgrade.py:515-540 | the guarded part of restore ends in the record rolled_back or leaves the journal open; it stays at committed, with the old data in place, exactly when a kill or two faults cut it short before rollback_starting |
| Upgrade.Host.StartOld | deploy/safe_upgrade.py:640-654 | without a snapshot the untouched old version is started again |
| Upgrade.Host.Forward | deploy/safe_upgrade.py:607-634 | the transaction ends committed with the candidate on its data, or raises with an open journal, or raises under the record committed exactly when that very write does |
| Upgrade.Host.StartCandidate | deploy/safe_upgrade.py:631-634 | the candidate is committed only after it was found healthy |
| Upgrade.Host.UpgradeTo | deploy/safe_upgrade.py:593-655 | refused, with nothing changed, for an open journal, the same version or data that does not fit; it commits exactly when every action works, and then the candidate runs, restarted through the gate after any death, unless the last death behind its start went without a restart; when it raises after a single fault the journal says rolled_back, or has only its first record, or is as before; afterwards the host is safe if and only if the script is not an exposing one |
| Upgrade.Host.RecoverPending | deploy/safe_upgrade.py:658-681 | refuses exactly when nothing is pending or the coordinator lives; the refusals "snapshot missing after switch" and "previous executable not active" cannot happen; undisturbed it restores the old version; done, the old version and its data are back, and it runs unless its last death after the start went without a restart |
| Upgrade.Host.AutoRecover | deploy/safe_upgrade.py:702-716 | does nothing to a closed journal or under a live coordinator |
| Upgrade.RollbackUnderClosedJournal | deploy/safe_upgrade.py:507-514 | by hand after an undisturbed commit: a displaced data directory and a boot let the gate start the panel without its data |
| Upgrade.CommitRaisesLate | deploy/safe_upgrade.py:634-639 | an exposing script: eleven actions work, the write of committed raises when it is on disk, and so does the move of the data |
| Upgrade.UpgradeThenBoot | deploy/safe_upgrade.py:593-655 | for every script: an upgrade of a fresh host and then a boot leave it unsafe, with the panel started, if and only if the script is exposing |
| Upgrade.Host.Boot | deploy/safe_upgrade.py:291-295 | after a boot the panel runs on data that belongs to its binary if and only if the journal told the truth; if it did not, the gate starts it all the same |
| Upgrade.Perform | deploy/safe_upgrade.py:593-716 | one command, killed or disturbed anywhere, or one boot: harm is done exactly by a boot under a journal that does not tell the truth, and only an exposing upgrade brings that about |
| Upgrade.Run | deploy/safe_upgrade.py:593-681 | any sequence of upgrades, recoveries and boots, each killed or disturbed anywhere, keeps what runs on its own data until a boot meets a journal that does not tell the truth; without an exposing upgrade binary and data stay together, and committed and rolled_back name a version that is installed on its own data and was found healthy |
| Collector.AggregateRows | agent/helpers/hermes_collector.py:283-323 | the new baseline is the snapshot of the rows and each group's tally is the sum of its rows' growth and resets; refused exactly for invalid counters |
| Collector.TakeSamples | agent/helpers/hermes_collector.py:282-342 | fails exactly when the rows cannot be measured, has no room exactly when the groups exceed it, else one sample per group with its growth and resets |
| Collector.UnmeasurableMeans | agent/helpers/hermes_collector.py:293-325 | rows cannot be measured exactly if they cannot be read, a counter is no integer from 0 to 2^53-1, there are more than 256 groups or one gained more than 2^53-1 |
| Collector.GroupMeans | agent/helpers/hermes_collector.py:53-57 | a row belongs to the group with its model, provider, mode and task, each spelled as the panel takes it or unknown, and main for no task |
| Collector.StartMeans | agent/helpers/hermes_collector.py:288-290 | an interval is bounded by the last reading if that is past and no older than a minute or three sampling intervals |
| Collector.Collector.Absorb | agent/helpers/hermes_collector.py:233-246 | only acknowledged samples leave the outbox; an over-age baseline is forgotten |
| Collector.Collector.Collect | agent/helpers/hermes_collector.py:250-342 | exact conditions of each status; the outbox grows by the emitted samples only and never beyond 4096, and these report the rows of the interval (Reports, for one); collecting exactly if a row gained something or its gain cannot be told; while `last` is set the baseline is the snapshot taken then |
| Collector.SampleReports | agent/helpers/hermes_collector.py:291-335 | a sample is proven exactly if each row of its group goes on from its mark (same first_seen and rewind, no counter fell) or is new and was first seen in the interval; `resets` is the number of the other rows, and the counts are what the rows gained |
| Collector.EmissionReports | agent/helpers/hermes_collector.py:291-335 | the samples of a tick say this of every group that has a row, one each |
| Collector.UntoldAreResets | agent/helpers/hermes_collector.py:303-319 | the resets counted by the loop are the rows whose gain cannot be told |
| Collector.TooLargeIsExcessive | agent/helpers/hermes_collector.py:324-325 | the limits checked on the tallies are limits on the groups' true growth |
| CollectorRuns.Accounts | agent/helpers/hermes_collector.py:291-323 | for rows of any order, told apart by key: the rest of the old level plus what is emitted plus what cannot be proven is the new level |
| CollectorRuns.StepAccounts | agent/helpers/hermes_collector.py:291-323 | over one interval, if the group's rows go on, its level rises by exactly what is emitted and what cannot be proven |
| CollectorRuns.GrowthIsBounded | agent/helpers/hermes_collector.py:303-323 | what is emitted for a group is never negative and never more than the group truly grew, whatever the interval |
| CollectorRuns.GrowthIsExact | agent/helpers/hermes_collector.py:303-312 | and all of it when the added rows were first seen in the interval |
| CollectorRuns.ProvenCountsAll | agent/helpers/hermes_collector.py:331-335 | if the rows of its group go on, a proven sample counts exactly the difference of the two levels |
| CollectorRuns.EmissionIsGrowth | agent/helpers/hermes_collector.py:331-335 | the samples of one tick count every group's growth exactly once |
| CollectorRuns.OneTick | agent/helpers/hermes_collector.py:225-345 | any tick, disabled, unavailable, stale or collecting, with or without the early write, and restarted from disk anywhere: the exact effect on baseline, last, outbox and what is durably emitted |
| CollectorRuns.PathIsBounded | agent/helpers/hermes_collector.py:282-338 | along the adopted readings a group emits at most its last level minus its first |
| CollectorRuns.StretchIsExact | agent/helpers/hermes_collector.py:282-338 | and exactly that on every stretch of bounded intervals |
| CollectorRuns.NoMoreThanGrowth | agent/helpers/hermes_collector.py:225-345 | the same bound for the readings of the ticks themselves, adopted or not |
| CollectorRuns.RunTicks | agent/helpers/hermes_collector.py:225-345 | any list of ticks with crashes: the states form a chain, and each tick's report, effect, emitted samples and outbox follow from the state the one before it left; the adopted readings form a path whose intervals are bounded exactly when last was kept between them; a group whose rows go on durably emits at most its last level minus its first, with equality on bounded stretches; and every emitted sample stays in the outbox until it is acknowledged |
| Samples.FourChecksGuardNine | backend/database/aimonitor/limits.go:47-54 | for consistent totals, safeAdd's four checks accept a sum exactly if all nine counters of it are within 2^53-1; the books stay balanced |
| Samples.FourChecksNeedConsistency | backend/database/aimonitor/limits.go:47-54 | without consistency a fifth counter escapes |
| Samples.SoundRowIsConsistent | backend/database/aimonitor/retention.go:91-107 | a validated row gives consistent totals: total is the four token counts, calls are priced plus unpriced |
| Samples.FoldIsBooked | backend/database/aimonitor/retention.go:91-121 | each of the nine totals counts what its name says: the sum of that field over the selected rows, calls as priced or unpriced by whether the row has a cost, and the four kinds of tokens together |
| Samples.FoldOfPermutation | backend/database/aimonitor/retention.go:108-121 | totals do not depend on the order in which rows are added |
| Panel.StoreSamples | backend/database/aimonitor/store.go:272-298 | the transaction commits exactly when no new sample is refused, stores exactly the samples whose ledger insertion took effect, and acknowledges all of them in order |
| Panel.Panel.Ingest | backend/database/aimonitor/store.go:263-305 | accepted exactly for a valid report, an admitted node and no refused new sample; ledger, rows and acknowledgements are the specified ones, and a refusal changes nothing |
| Panel.ValidateMeans | backend/database/aimonitor/validation.go:166-208 | what a valid report is: version 1, at most 256 samples, times from thirty days ago to two minutes ahead, samples of at most an hour with seven counters up to a trillion and no more reasoning than output |
| Panel.NothingStoredAgain | backend/database/aimonitor/store.go:273-297 | a sample that was stored is not stored again, even after its ledger row has expired: under the same key only a later sample can follow |
| Panel.FreshIdsDiffer | backend/database/aimonitor/store.go:272-277 | one report stores no id twice |
| Panel.Panel.StoredOnce | backend/database/aimonitor/store.go:263-305 | in every reachable store, of two rows with the same node and id the one stored later ended later |
| Panel.AddToRollup | backend/database/aimonitor/retention.go:161-177 | raises the one rollup of the key by the row's totals, for every filter, and overflows exactly when safeAdd refuses that rollup |
| Panel.TakeBatch | backend/database/aimonitor/retention.go:150-156 | the first 512 retired rows in the order of end and id, and batch plus rest hold what the table held |
| Panel.FoldBatch | backend/database/aimonitor/retention.go:155-178 | refused exactly when under some key the rollup and the batch together exceed what a rollup can hold; otherwise rollups grow, for every filter, by exactly the rows of the batch inside retention, with one rollup per key |
| Panel.ExpireRollups | backend/database/aimonitor/retention.go:184-196 | only rollups past retention go, at most 512, and no filter inside retention notices |
| Panel.ExpireLedger | backend/database/aimonitor/retention.go:197-205 | only ledger rows past the horizon go, at most 512, and all of them when fewer |
| Panel.Panel.Maintain | backend/database/aimonitor/retention.go:142-235 | succeeds exactly when the retiring rows fit their rollups; then exactly these rows go, all of them older than the detail hours, details and rollups together still count, field by field, every accepted row that lies inside retention, nothing stored is forgotten too early, and unless a batch was full nothing stays that is past its limit; refused it changes nothing |
| Panel.MaintainConserves | backend/database/aimonitor/retention.go:150-196 | moving rows into rollups and expiring rollups changes no total inside retention |
| Panel.ConservedIsBooked | backend/database/aimonitor/retention.go:91-196 | what is conserved is, for every node and time filter, each of the nine totals as the sum of the fields of the accepted rows |
| Panel.ForgottenIsTooOld | backend/database/aimonitor/retention.go:198-205 | after expiry whatever could still be accepted is still in the ledger |
| Panel.ForgottenIsRefused | backend/database/aimonitor/validation.go:166-168 | a sample whose ledger row was deleted is refused by validation at every later time |
| Panel.ForgottenReturnsExactly | backend/database/aimonitor/validation.go:166-168 | some sample old enough to be forgotten at one time is valid at another if and only if that one is a second or more earlier |
| Panel.ClockMustNotFallBack | backend/database/aimonitor/validation.go:166-168 | with an earlier clock the same sample is valid again |
| Pipeline.Pipeline.TickAbsorb | agent/helpers/hermes_collector.py:240-246 | dropping acknowledged samples loses nothing, since only committed samples are acknowledged |
| Pipeline.Pipeline.TickPersistEarly | agent/helpers/hermes_collector.py:274 | the early write of the state changes nothing that was emitted |
| Pipeline.Pipeline.TickCollect | agent/helpers/hermes_collector.py:250-342 | new samples come under fresh ids and are only in memory |
| Pipeline.Pipeline.TickPersist | agent/helpers/hermes_collector.py:345 | the write of state.json is the step that emits them |
| Pipeline.Pipeline.TickDropAck | agent/helpers/hermes_collector.py:346-352 | only acknowledgements of samples no longer pending are unlinked |
| Pipeline.Pipeline.TickReport | agent/helpers/hermes_collector.py:353-364 | the spool carries the first 256 durable samples |
| Pipeline.Pipeline.CollectorCrash | agent/helpers/hermes_collector.py:97-100 | a restart from state.json at any point of a tick loses nothing emitted |
| Pipeline.Pipeline.RelaySend | agent/hermesai/relay.go:297-349 | a request is a copy of the spool's report and may be sent any number of times |
| Pipeline.Pipeline.PanelReceive | backend/database/aimonitor/store.go:263-305 | a request is taken in full, recorded and answered, or refused without a trace |
| Pipeline.Pipeline.RelayAck | agent/hermesai/relay.go:351-369 | an acknowledgement is written exactly for an accepted id that was offered |
| Pipeline.AcceptedIsIngested | backend/database/aimonitor/store.go:272-298 | whatever the panel acknowledges it has committed |
| Pipeline.Pipeline.NothingIsLost | agent/helpers/hermes_collector.py:240-352 | in every reachable state an id is emitted if and only if it is pending in the durable outbox or committed by the panel |
| Pipeline.Pipeline.NothingIsStoredTwice | backend/database/aimonitor/store.go:263-305 | in every reachable state no id of the node is stored twice |
| Pipeline.Run | agent/hermesai/relay.go:297-370 | any interleaving of ticks, crashes, sends, repeated or late arrivals, acknowledgements and maintenance: a sample leaves the durable outbox only once committed |
| Coverage.Sweep | backend/database/aimonitor/coverage.go:69-83 | the cursor walk accepts exactly when no stretch longer than the tolerance is uncovered |
| Coverage.NodeSweep | backend/database/aimonitor/overview.go:685-700 | sorting and sweeping one node's rows decides whether the node is covered |
| Coverage.CoveredAverageBy | backend/database/aimonitor/coverage.go:53-85 | an average exists if and only if all rows are proven, without a reset, inside the window and sum up to at most 2^53-1, and every node with rows is covered; then it is the sum over the length |
| Coverage.LiveWindow | backend/database/aimonitor/overview.go:667-702 | a total exists if and only if the live rows are usable and every enabled node is covered; then each of its nine counters is the sum of that field over the rows of enabled nodes that reach into the window |
| Coverage.LiveUsableMeans | backend/database/aimonitor/overview.go:670-684 | for validated rows, usable means: inside the window, proven, without a reset, and all nine sums within 2^53-1 |
| Coverage.SafeSumsFit | backend/database/aimonitor/limits.go:47-54 | sums of validated rows pass every check of safeAdd exactly if the nine last counters are within 2^53-1 |
| Coverage.TrendCoverage | backend/database/aimonitor/overview_aggregate.go:325-369 | the three verdicts are exactly: no evidence, full cover of every expected node, anything else |
| Coverage.VerdictMeans | backend/database/aimonitor/overview_aggregate.go:325-369 | the verdicts in terms of the rows: missing if none reaches into the range; full if those that do lie inside it, proven and without a reset, and every expected node has one and is covered |
| Coverage.SweptRowsDecide | backend/database/aimonitor/overview_aggregate.go:331-340 | leaving out rows that do not reach into the window changes no verdict |
| Coverage.MergeIntervals | backend/database/aimonitor/coverage.go:34-46 | the merge loop counts exactly the ticks in the union of the intervals |
| Coverage.ObservedOutputAverage | backend/database/aimonitor/coverage.go:15-51 | exists exactly for observable rows, and divides the output by the number of ticks some sample covers |
| Coverage.ObservableMeans | backend/database/aimonitor/coverage.go:15-27 | which rows are observable: inside the window, forward, proven, without a reset, with outputs from 0 that sum up to at most 2^53-1 |
| Coverage.ArrangementDoesNotMatter | backend/database/aimonitor/coverage.go:28-33 | input order and overlaps do not change it |
| TrendBuckets.BucketsTile | backend/database/aimonitor/overview_aggregate.go:381-409 | every tick of the range lies in the slice of exactly one bucket, and no other tick lies in any |
| TrendBuckets.SliverIsDropped | backend/database/aimonitor/overview_aggregate.go:382 | a range end inside the sliver leaves its last tick in no bucket |
| TrendBuckets.RangeIsKept | backend/database/aimonitor/overview_aggregate.go:381-398 | the buckets hold every tick of a range if and only if its end is clear of the sliver or in the first bucket |
| TrendBuckets.DayOfMinutes | backend/database/aimonitor/overview_aggregate.go:11-14 | at most 1441 minute buckets for 24 hours |
| TrendBuckets.FileRow | backend/database/aimonitor/overview_aggregate.go:388-394 | a row is filed under exactly its buckets |
| TrendBuckets.IndexAgrees | backend/database/aimonitor/overview_aggregate.go:384-410 | the rows filed under a bucket give the verdict that all rows would give, if row ends are clear of the slivers |
| TrendBuckets.IndexAgreesExactly | backend/database/aimonitor/overview_aggregate.go:384-410 | for any rows: they do if and only if no row is missed, or something else is filed, the index is not full over an unusable missed row, and not short of full because what is filed for a node begins later than a tolerance |
| TrendBuckets.IndexMissesSlivers | backend/database/aimonitor/overview_aggregate.go:388-394 | for a row that ends inside the sliver the index says missing where all rows do not, and say partial if it starts before the edge |
| TrendBuckets.CompleteTrendCoverage | backend/database/aimonitor/overview_aggregate.go:371-417 | one entry per bucket without a gap, with the totals of the trend it had or none, and the verdict of the rows filed under it, which is that of all rows if their ends are clear of the slivers; missing without a trend, partial without proof |
| TrendBuckets.WalkDay | backend/database/aimonitor/evidence.go:18-31 | the walk finds a day covered exactly when every bucket that meets it is full and the trend reaches its end |
| TrendBuckets.ApplyDailyCoverage | backend/database/aimonitor/evidence.go:7-39 | every day is judged by that, in place, for any day boundaries: unknown if no bucket meets it, covered if each bucket that meets it is full and the trend reaches its end, and partial otherwise |
| TrendBuckets.CoveredDayIsProven | backend/database/aimonitor/evidence.go:18-36 | on a covered day every node has no uncovered stretch longer than two tolerances in the day's part of the range, wherever its rows end |
| TrendBuckets.OneToleranceExactly | backend/database/aimonitor/evidence.go:18-36 | and none longer than one if and only if at each bucket edge inside the day the last covered tick before it and the first one from it on are no further apart |
| TrendBuckets.CoveredDayMeans | backend/database/aimonitor/evidence.go:7-39 | both from the mark on the day, through the trend, to the samples |
| TrendBuckets.TwiceTheTolerance | backend/database/aimonitor/overview_aggregate.go:355-366 | one tolerance is not enough |
| EditDistance.Levenshtein | backend/utils/utils.go:116-145 | the two rolling rows compute the recursive distance for all texts |
| EditDistance.DistanceIsLeastCost | backend/utils/utils.go:115-116 | that number, and no other, is the length of a shortest insert, delete and substitute script |
| EditDistance.NoCheaperScript | backend/utils/utils.go:115-116 | no script is shorter |
| EditDistance.TriangleInequality | backend/utils/utils.go:115-116 | by composing scripts |
| EditDistance.Symmetric | backend/utils/utils.go:115-116 | the distance does not depend on direction |
| EditDistance.ZeroOnlyForEqual | backend/utils/utils.go:115-116 | only equal texts are at distance zero |
| Masking.SimilarityOf | backend/utils/utils.go:98-113 | one minus distance over the longer length |
| Masking.MarkWord | backend/utils/utils.go:40-59 | skipping windows that are already masked changes nothing: a position is marked exactly if it was, or a similar window covers it |
| Masking.Mark | backend/utils/utils.go:38-59 | the mask is a function of the set of words: order and repetition do not matter |
| Masking.Write | backend/utils/utils.go:61-84 | each maximal masked run is shown as one mask, with its ends when longer than five |
| Masking.HiddenStretch | backend/utils/utils.go:61-84 | a hidden stretch between shown ones is written as eight stars, with its first and last rune around them if it is longer than five |
| Masking.RenderOfParts | backend/utils/utils.go:61-84 | cut anywhere but inside a hidden stretch, the parts of a text are written as if alone |
| Masking.DataMasking | backend/utils/utils.go:7-85 | the output shows the text under exactly that mask |
| Masking.HitMeansFewEdits | backend/utils/utils.go:13-14 | similarity 0.8 means: some script with at most one edit in five runes |
| Masking.ExactOccurrenceMasked | backend/utils/utils.go:38-59 | every exact occurrence of a private word is masked in full |
| Masking.HiddenRunesDoNotShow | backend/utils/utils.go:61-84 | the output depends on no hidden rune |
| PrefixGroups.CollapseKeepsCoverage | backend/tools/update_return_route_bgp_rules.py:32-36 | collapsing changes no address's membership |
| PrefixGroups.CollapseIsMinimal | backend/tools/update_return_route_bgp_rules.py:32-36 | no network is left inside another and no two halves of one |
| PrefixGroups.CollapseGroupKeepsMembers | backend/tools/update_return_route_bgp_rules.py:32-36 | over both address versions a collapsed group holds exactly the addresses it held |
| PrefixGroups.Prioritise | backend/tools/update_return_route_bgp_rules.py:53-62 | each network goes to the first group that holds it |
| PrefixGroups.EarliestHolderOwns | backend/tools/update_return_route_bgp_rules.py:53-62 | in the automatic table an address belongs to the earliest group among those with its longest network |
| PrefixGroups.ClaimAll | backend/tools/update_return_route_bgp_rules.py:71-84 | finds an overlap exactly when maintained networks of different groups overlap |
| PrefixGroups.SupernetsSortFirst | backend/tools/update_return_route_bgp_rules.py:39-40 | in sorted order a network comes before everything inside it, so no maintained network is removed by a later one |
| PrefixGroups.SortsLikeADictionary | backend/tools/update_return_route_bgp_rules.py:39-40 | the sort keys arrange networks by version and then by their bits, like words of a dictionary |
| PrefixGroups.Install | backend/tools/update_return_route_bgp_rules.py:86-97 | the loops leave the automatic networks outside all maintained ones, plus the maintained ones |
| PrefixGroups.ResolvePrefixGroups | backend/tools/update_return_route_bgp_rules.py:43-102 | overrides of unknown groups, and networks of two groups of the overrides that overlap, are refused, and nothing else is; resolved, every override is in its group and in no other, an address inside one belongs to that group only, and any other address to whom it belonged in the automatic table |
| PrefixGroups.AutomaticOwner | backend/tools/update_return_route_bgp_rules.py:53-62 | in the automatic table an address belongs to the first group, in the order of priority, that has one of its longest networks after collapsing |
| PrefixGroups.PrecedesMeans | backend/tools/update_return_route_bgp_rules.py:43-52 | a group comes before another if it is listed before any mention of it, or if neither is listed and its name sorts first |
| PrefixGroups.SomeOwner | backend/tools/update_return_route_bgp_rules.py:53-62 | an address has an owner after resolution exactly if some network, automatic or override, contains it |
| PrefixGroups.InstalledHasOneHolder | backend/tools/update_return_route_bgp_rules.py:86-97 | no network is held by two groups |
| PrefixGroups.OwnerAfterResolution | backend/tools/update_return_route_bgp_rules.py:86-97 | under longest match a maintained network decides its whole range and every other address keeps its owner |
| PrefixGroups.ResolvedOwner | backend/tools/update_return_route_bgp_rules.py:43-102 | both facts for what the function returns |
| ResetClock.ActualResetDayInMonth | agent/utils/utils.go:84-92 | the day is clamped to the length of the month, leap years included |
| ResetClock.ResetTime | agent/utils/utils.go:84-92 | the reset happens at the asked second of the asked day, local time, or of the last day of a shorter month |
| ResetClock.MonthStartIsCivil | agent/utils/utils.go:84-92 | months begin on the days of the Gregorian calendar |
| ResetClock.ResetInsideItsMonth | agent/utils/utils.go:84-92 | each month's reset happens in that month, local time |
| ResetClock.LastResetIsGreatest | agent/utils/utils.go:23-44 | the result is the greatest reset instant not after now, for every day, clock and fixed offset |
| ResetClock.NoResetDay | agent/utils/utils.go:25-28 | for a day outside 1 to 31 the last reset is now |
| ResetClock.PanelCycle | backend/database/clients/traffic_allowance.go:36-47 | which month's boundary the panel names, spilled dates included |
| ResetClock.BoundaryIsReset | backend/database/clients/traffic_allowance.go:29-34 | a month's boundary and the agent's midnight reset of that month are the same day |
| ResetClock.CycleAgreesWithReset | backend/database/clients/traffic_allowance.go:36-47 | panel and agent name the same day if and only if it is not a day that last month lacked and that comes before this month's reset |
| ResetClock.CycleInTheFuture | backend/database/clients/traffic_allowance.go:43-44 | 29 March of a common year with reset day 31: the panel names 31 March |
| TrafficStatic.AggregateByReset | agent/monitoring/netstatic/static.go:288-335 | at most two records that count, in every range, what the cached records count once moved to the flush |
| TrafficStatic.NetStatic.SampleInterface | agent/monitoring/netstatic/static.go:235-255 | a first sample only sets the last counters; a later one also records the difference, unless it is zero; interfaces that are not monitored are skipped |
| TrafficStatic.NetStatic.SampleOnce | agent/monitoring/netstatic/static.go:229-256 | every interface is charged, in the ranges that include the time of the round and in no other, what its samples are worth |
| TrafficStatic.NetStatic.FlushCache | agent/monitoring/netstatic/static.go:258-270 | the cache is empty, its records count in the store as if moved to the flush, and every interface's grand total is unchanged |
| TrafficStatic.SplitsAtTheLastReset | agent/monitoring/netstatic/static.go:272-286 | a flush splits at the greatest reset instant not after it, and not at all without a day to reset on or a reset since 1970 |
| TrafficStatic.NetStatic.GetTotalTrafficBetween | agent/monitoring/netstatic/static.go:506-544 | reports exactly the recorded traffic of the range, and leaves out only interfaces without any |
| TrafficStatic.OneRecordCounts | agent/monitoring/netstatic/static.go:512-516 | a range includes both of its ends, and zero leaves a side open |
| TrafficStatic.FlushKeepsTotalSinceReset | agent/monitoring/netstatic/static.go:272-323 | a flush keeps the total since the reset it splits at, since a later one if and only if nothing of it is cached, and since an earlier one if and only if nothing older is |
| TrafficStatic.NewerThanFlush | agent/monitoring/netstatic/static.go:314-321 | a record newer than the flush is filed too early for exactly the resets after the flush and not after the record |
| TrafficStatic.SteadyCharge | agent/monitoring/netstatic/static.go:221-254 | an interface whose counters never fall is charged its last counters minus its first, in 64-bit arithmetic |
| TrafficStatic.ChargeIsClimb | agent/monitoring/netstatic/static.go:221-254 | any interface is charged the sum of the rises of its counters, and a fall counts nothing |
| TrafficStatic.SteadyRunCharge | agent/monitoring/netstatic/static.go:221-254 | the same over a whole run, wherever in it the interface is first sampled |
| TrafficStatic.Run | agent/monitoring/netstatic/static.go:229-270 | over any run of samples and flushes store plus cache grow by exactly what the samples are worth; with steady counters that is last minus first, for interfaces known before and for those first sampled in the run |
| RuntimeConfig.NormalizeTwice | backend/database/clients/deployment_profile.go:335-400 | a normalised profile passes normalisation unchanged |
| RuntimeConfig.ProfileMeans | backend/database/clients/deployment_profile.go:335-400 | which profiles are accepted, and the settings of each: every field that is switched on, texts trimmed, and the default of every other one |
| RuntimeConfig.TrimSpaceMeans | agent/server/runtime_config.go:171-180 | trimming takes away exactly the white space at both ends |
| RuntimeConfig.RequestedMeans | agent/server/runtime_config.go:65-126 | a message is accepted exactly if each field it carries is allowed, and then each of the eight settings is the field, texts trimmed, or its old value if the message leaves it out |
| RuntimeConfig.OnlyADay | backend/web/api/client/runtime_config.go:26 | a message with only a day is accepted exactly for a day from 0 to 31 and changes nothing else |
| RuntimeConfig.AppliedInFull | agent/server/runtime_config.go:65-168 | a profile's message is accepted exactly when day and interval are in range, and then the agent runs with exactly the profile's settings |
| RuntimeConfig.ReportIsUnderstood | backend/database/clients/deployment_profile.go:451-492 | the profile read from an agent's report has the settings the agent runs with |
| RuntimeConfig.ReportMeans | backend/database/clients/deployment_profile.go:451-492 | the settings read from any report, field by field, with defaults for what it leaves out |
| ConfigDelivery.Profiles.Save | backend/database/clients/deployment_profile.go:145-237 | a new revision exactly for a change the agent would notice, a failed delivery or a first profile; otherwise delivery state stays |
| ConfigDelivery.NextMeans | backend/database/clients/deployment_profile.go:196-214 | revisions go up by one and wrap from 2^64-1 to 1 |
| ConfigDelivery.Profiles.MarkSent | backend/database/clients/deployment_profile.go:243-256 | marks exactly the current revision and never hides a finished delivery |
| ConfigDelivery.Profiles.Complete | backend/database/clients/deployment_profile.go:262-303 | ends a delivery exactly for the current revision, with Hermes confirmed where it is enabled |
| ConfigDelivery.SanitizedMeans | backend/database/clients/deployment_profile.go:282-291 | an error text is trimmed, loses its control characters and is cut off after 512 |
| ConfigDelivery.PrintableParts | backend/database/clients/deployment_profile.go:283-288 | each part of a text loses its own control characters, whatever is around it |
| ConfigDelivery.Profiles.Adopt | backend/database/clients/deployment_profile.go:514-615 | exact outcome of adoption: create, close, promote an unversioned profile, or leave |
| ConfigDelivery.MatchForgivesTheDay | backend/database/clients/deployment_profile.go:525-576 | a report closes a delivery if and only if it agrees on everything but the reset day |
| ConfigDelivery.MatchWithoutTheClientsDay | backend/database/clients/deployment_profile.go:525-576 | without a day of the client's own the reset day counts as well, and under a day beyond 31 no report closes a delivery |
| ConfigDelivery.MatchIsEqualityUpToTheDay | backend/database/clients/deployment_profile.go:525-576 | such a report states the panel's settings exactly when its reset day is the panel's |
| ConfigDelivery.WrongDayIsBelieved | backend/database/clients/deployment_profile.go:525-576 | an agent that resets on the 1st closes the delivery of the 15th |
| ConfigDelivery.Agent.Apply | agent/server/runtime_config.go:65-169 | succeeds exactly if every field is allowed, the helper takes its switch if there is one, and the network statistics work or nothing they depend on is to change; then each of the eight settings is the message's field or, if left out, what it was, and otherwise none changes; a message with only a day from 0 to 31 changes the day; the helper's switch and the reset day move exactly when the message is sound and the helper does not refuse, so they leave step with the settings exactly when the network statistics then refuse and one of the two was to change |
| ConfigDelivery.Agent.Carry | agent/server/runtime_config.go:128-168 | the same for the half behind the checks, from the settings to reach |
| ConfigDelivery.RefusedHalfway | agent/server/runtime_config.go:128-168 | an instance: the settings stay, the helper's switch and the reset day have moved |
| ConfigDelivery.Agent.Process | agent/server/runtime_config_delivery.go:24-62 | a revision is tried once per run, older ones never after it; processed and applied only rise; the pending result is this revision's |
| ConfigDelivery.Agent.SetPending | agent/server/runtime_config_delivery.go:89-97 | an older result never overwrites a newer one |
| ConfigDelivery.Agent.ClearPending | agent/server/runtime_config_delivery.go:109-121 | clears nothing but the very result that was sent |
| ConfigDelivery.Agent.Restart | agent/server/runtime_config_delivery.go:16-22 | a new run knows no revision |
| ConfigDelivery.Delivery.PanelAdopts | backend/web/api/client/report_v2.go:72-76 | a delivery closed by adoption rests on settings that some report stated |
| ConfigDelivery.Delivery.PanelCompletes | backend/web/api/client/report_v2.go:77-84 | a delivery closed by a result rests on an application of that revision with these settings |
| ConfigDelivery.Delivery.PanelReceives | backend/web/api/client/report_v2.go:64-95 | adoption, result and answer together keep every claim |
| ConfigDelivery.Delivery.AdminSaves | backend/web/rpc/jsonrpc/admin.client_deployment.go:51-93 | a change is stored under the next revision and sent |
| ConfigDelivery.Delivery.AgentReceives | agent/server/runtime_config_delivery.go:24-62 | the agent's log of applications stays true to the revisions |
| ConfigDelivery.Delivery.AgentHears | agent/server/basicInfo.go:94-112 | an answered upload clears only its own result |
| ConfigDelivery.Run | agent/server/runtime_config_delivery.go:24-121 | under lost, repeated and reordered messages and restarts, a revision held as applied was applied by the agent with these settings, or the agent has reported settings equal apart from the reset day; no result vanishes unheard |
| ConfigDelivery.NextIsUnseen | agent/server/runtime_config_delivery.go:24-62 | in every reachable state, as long as revisions have not run out, the agent has not seen the next one |
| ConfigDelivery.Deliver | backend/web/rpc/jsonrpc/admin.client_deployment.go:51-93 | a delivery that nothing disturbs ends applied, from every reachable state in which revisions have not run out, and from any other in which the agent has not seen the next one |

## Left out

- HTTP, WebSocket, SQLite, GORM, zip archives, hashing, systemd and the file system below single operations: tables and
  files are fields, a transaction is one step, and systemd restarts a service that nobody stopped.
- Floating point: similarity is a real number, sample times are whole microseconds, costs are left out; the collector's
  and the panel's times are compared exactly.
- Coverage sweeps in SQL (rangeUsage, aggregateTrendCoverage): they treat rows across a bucket edge differently.
- Coverage.LiveWindow and Coverage.CoveredAverageBy: rows that run backwards in time, which validation refuses, are
  outside the "if and only if"; equal starts are sorted by end, which the code leaves open and the result does not show.
- Panel.Panel.Ingest and Panel.Panel.Maintain: the panel's clock does not fall back, without which replay protection
  fails (Panel.ClockMustNotFallBack); retention settings stay the same over a run.
- Panel.Panel.Maintain: errors of the database, after which the transaction changes nothing, are not among its outcomes.
- Quota, dimensions, node states, pricing rules and text checks of a report: they enter as arbitrary answers of the
  database, or as the flag wellFormed.
- Liveness of the relay: one sample over age makes its whole report invalid.
- The JSON checks of a report (DecodeStrict) and the relay's own size and redirect rules.
- Collector row keys are compared as rows instead of by their hash; random sample ids are numbers that are never drawn twice.
- The manual rollback action of the upgrade script (Upgrade.RollbackUnderClosedJournal shows what it risks). A harmed host
  is not followed further: operators then act outside the script.
- Upgrade.Host.UpgradeTo: the preflight checks are one condition, Accepts; on a host whose data does not fit its binary
  they stand for the checks of schema and health that fail there.
- Upgrade: a root/komari link that points straight at a release; schema checks, health checks and copying are actions that
  work or raise; a recovery that keeps failing is not shown to end.
- Upgrade.Host.ApplyTheme: from this step on the data counts as the candidate's; the migration at its first start is not
  a step of its own.
- Restore: errors of stat, the contents of journals and archives, and several finished restores in one life.
- Restore.Volume.Commit and Restore.Volume.Rollback: stated for a restore published without a left-over commit marker.
- Time zones with changing offsets, and parsing of reset clocks and zone names.
- Loading, saving and purging of the traffic file, and changes of its configuration.
- Address syntax and file handling of the prefix tool; group names are ranks in alphabetical order.
- Strings as Unicode: texts are sequences of characters, and invalid encodings are not modelled.
- Reset-day edits through the billing editor, which change the effective settings without a new revision; a run of the
  model starts without a profile or with one from before delivery tracking.
- ConfigDelivery.Agent.Restart: a start-up that can neither set the helper's switch nor clear it.
- The reset time and zone of the agent, which the panel's profile does not carry, and the options that only an
  installation command uses.
- The event queue between panel and agent: its messages are in the set of messages that may arrive at any time.
- The near copy deploy/compat/safe_upgrade.py, collectors for hardware data, sessions, themes and the frontend.
