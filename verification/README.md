# Verified model of the fleet policy manager

A Dafny 4.11 model of the parts of Fleet-Policy-Manager whose correctness spans processes, with
machine-checked proofs. `dafny verify dfyconfig.toml` checks everything.

The system publishes configuration policies and tracks whether devices follow them. The Policy Service
announces versions of policies onto a Redis stream. Replicas of the Compliance Service consume the stream
as one consumer group and keep a table of expectations, against which they judge the reports of devices.
A gateway limits the rate of all requests with token buckets kept in Redis. A simulator drives the whole
with worker processes whose counters a parent adds up.

## How it is modelled

| module | what it models |
|---|---|
| Events, Expectations | events and raw stream entries; the expectation table and its upsert; what a history of changes means |
| Redelivery | a log against the order in which it is really handled |
| ConsumerGroup, GroupSafety, GroupDrain, HandlingOnce, Starvation | stream, group, replicas and table as one labelled state machine; what holds in every run; why it drains; how often entries are handled; and, with delivery times, which ones never are |
| EventConsumer | the consumer's methods and loops over shared mutable state, each proved to be a run of that state machine |
| PolicyService, RolloutPipeline, InOrder, PolicyHistory | the Policy Service's table and announcements; the whole pipeline; which replicas handle the stream in order; what policies and expectations are, said of the requests alone |
| TokenBucket, BucketLaws | the bucket's arithmetic, and the laws of a bucket whose key is never dropped |
| ExpiringBucket, RetryHint, RateLimiter, SkewedClocks | the script with its expiring key, and the hint to rejected callers; the limiter over many identities; clocks that differ |
| Verdicts, ReportStore, StaleReports, InstanceCounters | the two evaluators of drift; interleaved ingest transactions; verdicts older than the expectations; flushed counters |
| FleetSimulator | snapshots of workers and their aggregation |

Code that changes state in place is a class, each of whose methods is proved to be a step or a run of the
state machines, or to compute the functions, that the theorems are about. Concurrency is interleaving of
atomic steps of any number of replicas or workers.

What is assumed of software that is not part of this model:

- XADD appends; XREADGROUP hands out entries in order, as many as the batch and the stream allow, and adds
  them to the pending list; XAUTOCLAIM examines at most ten pending entries for each one asked for, from the
  first on, and reassigns those that are idle; XACK removes an entry from the group's pending list, whoever
  owns it. All entries of one read or claim get the same delivery time. The Lua script is atomic, and a key
  is gone once 3600 seconds have passed since its last renewal.
- A statement outside a transaction is atomic. In PostgreSQL, an upsert locks its row until its transaction
  ends, and a sequence never yields a number twice. On the one SQLite connection of the Policy Service,
  statements that are not committed are seen by later requests and kept by the next commit, or gone after a
  restart.
- A call that raises may or may not have taken effect. Both cases are part of the models: for announcements
  and writes of the Policy Service, reads, claims and acknowledgements of the consumer, the handler's
  statement, the limiter's script, the ingest transaction and the flush of counters. A Policy Service that
  stops between two calls of a request leaves what it leaves when the second call raises without effect and
  it is then restarted.
- The snapshots of one simulator worker arrive in the order in which they were sent.

Faults, clock readings, generated identifiers and the order in which a database returns rows are parameters
or nondeterministic choices.

## Where the code falls short of what it promises

The model follows the code. Each shortfall is proved at an input, with the exact condition under which the
code does meet the promise.

- Handling an event again is documented as harmless (docs/ARCHITECTURE.md:146-148). Only `version` is
  protected; a late redelivery of an older event overwrites name, group and settings and re-activates a
  retired policy. `Expectations.RedeliveryCanUndo` shows both, `Expectations.RedeliveryHarmlessIff` says
  exactly when redelivery is harmless, and `GroupSafety.DrainedOutOfOrder` is a run of one replica in which
  a single handler failure leaves version 2 with the settings of version 1. A single restart does so too:
  `GroupSafety.RestartedOutOfOrder`.
- Each event is documented as handled by exactly one replica (services/compliance/app/main.py:122-123).
  `HandlingOnce.HandledTwice` is a run without any failure in which two replicas handle an entry.
  `HandlingOnce.HandledOnceIff` says that entries are handled at most once exactly when every reclaim is
  clean: what it takes and would handle was not handled before, and is with no other replica.
- A failed handler leaves its entry to be retried. When the entry is JSON but not an object, the logging of
  the failure raises as well, and the rest of the batch is abandoned (shared/fleetcommon/events.py:203-209).
  An entry that no handler can complete keeps the group from ever draining: `GroupDrain.DrainsIff`. One
  that is not an object also starves what was read with it and comes after it, for ever, since they become
  idle together: `Starvation.MatesStarve`. `Starvation.HandledIff` says exactly which entries can still be
  handled.
- The Policy Service accepts texts with a NUL character, and announces them; PostgreSQL does not hold them.
  `RolloutPipeline.EventChange` says exactly which announcements are beyond their handler, and
  `RolloutPipeline.UnstorableBlocks` that one such policy keeps the group from ever draining.
- A publication is announced before it is written (services/policy/app/main.py:216-237). When the write then
  fails, devices are held to a draft that they are not told of: `RolloutPipeline.DraftIsExpected`.
  `RolloutPipeline.ProjectionIff` has it as one of its exact conditions.
- A publication also announces what an earlier request has left uncommitted. When its own commit does not
  succeed and the service restarts, expectations are ahead of their policy: `RolloutPipeline.RestartGoesBack`.
  `RolloutPipeline.ServeExposes` says exactly which requests lead there, `RolloutPipeline.RestartIff` that a
  restart does harm exactly then.
- The hint `retry_after` is rounded down. `RetryHint.HintSufficesIff` says exactly for which rates a caller
  that waits that long is admitted: a token takes at most a second, or a whole number of seconds, or the hint
  is an hour or more, after which the key is gone and the bucket full.
- The limiter is to admit a bounded number in any window (services/gateway/app/ratelimit.py:3-7). Its keys are
  dropped after an idle hour, which fills the bucket. `ExpiringBucket.WindowsAreBoundedIff` says that the
  bound holds exactly if an hour's refill is a full bucket, `ExpiringBucket.ExpiringWindowLaw` what is
  admitted in general, and `ExpiringBucket.RefusedAreInvisibleIff` when a rejected check costs its caller
  nothing. With clocks that differ, `SkewedClocks.OneBucketSufficesIff`.
- `/stats` casts the versions that devices report to 32-bit integers, which ingestion does not check
  (services/compliance/app/main.py:413). One accepted report makes it fail for everyone:
  `Verdicts.OneReportBreaksStats`. `ReportStore.StatsAnswersIff` says exactly when it answers.

## Model

| member | source | states |
|---|---|---|
| Expectations.ExpectationStore.HandleEvent | services/compliance/app/main.py:119-176 | handling succeeds exactly when the event names no policy or is of an unknown kind, or carries nothing that the database refuses and the database does not fail; then, and also when only the confirmation is lost, a deletion deactivates the row, and anything else upserts it: each column as sent, or "unnamed", "default", {} and version 1 for what was not, the version never decreasing; no other row changes, and the counter counts events acted on |
| Expectations.HandlingMeans | services/compliance/app/main.py:126-171 | the reading of events and the change to the table amount to just that |
| Expectations.TableMeaning | services/compliance/app/main.py:134-171 | after any history, a row exists iff the policy was announced; its content is the last announced one, its version the maximum announced, and it is active iff not retired since the last announcement |
| Expectations.SuffixReplay | services/compliance/app/main.py:126-171 | handling any history and then any suffix of it again leaves the table as it was |
| Expectations.RedeliveryHarmlessIff | docs/ARCHITECTURE.md:146-148 | handling one already handled event again is harmless iff it still says what the history says last about its policy |
| Expectations.RedeliveryCanUndo | docs/ARCHITECTURE.md:146-148 | a redelivered older event keeps the version but restores old settings, and revives a deleted policy |
| Redelivery.VersionsIgnoreOrder | services/compliance/app/main.py:143-145 | once every entry was handled at least once, the rows that exist and their versions are determined by the log, whatever the order and duplication |
| Redelivery.RowIsExactIff | services/compliance/app/main.py:140-148 | a row is what in-order handling gives iff the upsert handled last says what the log's last one says and both agree on retirement |
| Redelivery.ReplaysAreInvisible | services/compliance/app/main.py:122-125 | processing that advances one entry at a time, falling back to earlier entries any number of times, ends with the same table as processing in order |
| ConsumerGroup.StepInv | shared/fleetcommon/events.py:108-211 | every step of every replica, including faults and crashes, keeps the safety invariant of group, replicas and table |
| GroupSafety.EntryStatus | shared/fleetcommon/events.py:148-211 | in every reachable state an entry is exactly one of undelivered, pending with one owner, or acknowledged, and was delivered as new at most once |
| GroupSafety.OwnerTookItLast | shared/fleetcommon/events.py:148-186 | in every run a pending entry is owned by the replica that read or claimed it last |
| GroupSafety.AcknowledgedWasHandled | shared/fleetcommon/events.py:188-211 | an acknowledged entry was malformed, or its handler took effect and returned; one that committed and then raised does not suffice |
| GroupSafety.VersionsAreAnnounced | services/compliance/app/main.py:143-145 | at every moment, an expected version is one that an event of the policy in the stream carries |
| GroupSafety.RunPrecedes | services/compliance/app/main.py:143-145 | along every run, acknowledged entries stay acknowledged and no expected version decreases |
| GroupSafety.DrainedVersions | shared/fleetcommon/events.py:12-17 | when nothing is undelivered or pending, every announced policy is expected at the maximum version in the stream, whatever failed, crashed, was reclaimed or repeated |
| GroupSafety.DrainedRowIff | services/compliance/app/main.py:140-148 | in a drained group a whole row is the in-order one iff handling had the same ending as the log |
| GroupSafety.PoisonBlocks | shared/fleetcommon/events.py:201-209 | an entry whose handler cannot complete is never acknowledged, and keeps the group from draining |
| GroupSafety.DrainedOutOfOrder | shared/fleetcommon/events.py:138-146 | one replica and one handler failure suffice for a drained group with version 2 and the settings of version 1 |
| GroupSafety.RestartedOutOfOrder | shared/fleetcommon/events.py:138-186 | one replica and one restart suffice too, without any failing handler or acknowledgement: the loop reads new entries while its leftovers are not idle |
| GroupDrain.StepDecreases | shared/fleetcommon/events.py:138-211 | every step of a replica that is not a fault decreases the work left, under any interleaving and any batch size |
| GroupDrain.RunsAreBounded | shared/fleetcommon/events.py:138-211 | without new publications, the length of every run is bounded by its number of faults: with finitely many the group comes to rest |
| GroupDrain.SurvivorStep | shared/fleetcommon/events.py:81-84 | while anything is left to do, any one replica has an enabled step that is progress |
| GroupDrain.SurvivorDrains | shared/fleetcommon/events.py:12-17 | a single surviving replica drains the group, within the work left |
| GroupDrain.DrainsIff | shared/fleetcommon/events.py:188-211 | the group can be drained iff no entry in the stream is beyond its handler |
| HandlingOnce.HandledOnceIff | services/compliance/app/main.py:122-123 | in every run, at every point every entry is and will be handled at most once, whatever fails or crashes, iff every reclaim was clean: nothing it takes and would handle was handled before or is with another replica |
| HandlingOnce.ReclaimIff | shared/fleetcommon/events.py:148-173 | after a reclaim, no continuation without reclaims handles an entry twice iff that was so before and the reclaim is clean |
| HandlingOnce.UncleanRepeats | shared/fleetcommon/events.py:14-18 | after a reclaim that is not clean, a run without faults or further reclaims handles an entry twice, if no entry is beyond its handler |
| HandlingOnce.HandledTwice | shared/fleetcommon/events.py:148-173 | a reclaim from a replica that is merely slow makes two replicas handle the same entry |
| Starvation.HandledIff | shared/fleetcommon/events.py:148-211 | among the entries up to which a batch has room for all that is pending, exactly those can ever be handled, by any replicas, waits and faults, that a replica is about to handle, or that are not linked to an earlier entry that is not an object: delivered together with it, or idle while it is idle |
| Starvation.NeverHandled | shared/fleetcommon/events.py:188-211 | in every continuation a blocked entry stays blocked and is not handled |
| Starvation.MatesStarve | shared/fleetcommon/events.py:203-209 | an entry read together with, and after, one that is not an object, while nothing else is pending, is never handled |
| EventConsumer.Cluster.XAutoClaim | shared/fleetcommon/events.py:148-173 | the claim takes exactly the idle pending entries up to where its scan ends: at a full batch, at ten times as many pending entries, or at the end; it is the reclaim step of the state machine |
| EventConsumer.Consumer.Dispatch | shared/fleetcommon/events.py:188-211 | going through a batch is a run of the state machine; exactly the entries whose handler committed reach the table, in order; exactly the settled ones leave the pending list; the batch ends early iff an acknowledgement raises or an entry is not an object |
| EventConsumer.Consumer.ReclaimAbandoned | shared/fleetcommon/events.py:148-173 | takes over idle entries and dispatches them, up to the end or to the first message that aborts; a claim that is refused or does not get through changes nothing, and only the latter ends the iteration; a claim whose reply is lost leaves its entries with a replica that does not know of them |
| EventConsumer.Consumer.ReadNew | shared/fleetcommon/events.py:175-186 | reads and dispatches the next entries, up to the end or to the first message that aborts; nothing happens only if the read failed or the stream is exhausted; a read whose reply is lost leaves delivered entries pending |
| EventConsumer.Consumer.Iterate | shared/fleetcommon/events.py:138-146 | one iteration is a run in which at most one claim comes first and at most one read after it, each followed by its batch; untroubled, it has no faults and does nothing only if there is nothing to do |
| EventConsumer.Consumer.Loop | shared/fleetcommon/events.py:132-146 | the consumer loop is a run of the state machine whatever raises, and drains the group when left alone with calls that succeed |
| PolicyService.Service.Update | services/policy/app/main.py:165-202 | each of name, description, group and settings becomes what was sent, or stays if it was not; the version rises by one, the rest of the row and all other rows stay; the new row is announced iff it is published, the database confirmed the write and the bus took the announcement; unknown and deleted policies are not found |
| PolicyService.Service.Publish | services/policy/app/main.py:205-243 | the current row is announced, then marked as published and nothing else about it changed, then the rollout is recorded with its version, group and event id, or "unpublished" when the bus is down or its reply is lost; when a statement or the commit fails, the announcement stands, and what was executed is left open for the next commit |
| PolicyService.Service.Delete | services/policy/app/main.py:246-262 | the row is marked as deleted and nothing else changed; it is announced iff it was published, the database confirmed and the bus took it |
| PolicyService.Service.Create | services/policy/app/main.py:113-136 | a new row at version 1, neither published nor deleted, with what was sent |
| PolicyHistory.ColumnsAreLastSaid | services/policy/app/main.py:113-202 | over every history without restarts, each column of each policy is what the last effective request that sent it said |
| PolicyHistory.FlagsAreHistory | services/policy/app/main.py:113-262 | over every history without restarts, a policy is published iff a publication of it was written, deleted iff a deletion was, and its version is the number of times it was created or edited |
| PolicyHistory.PublishedIsTold | services/policy/app/main.py:265-281 | after a publication exactly the policy's group is told of its content and version, and nothing else changes for any group |
| PolicyHistory.ExpectationsAreHistory | services/policy/app/main.py:165-281 | with no restart, nothing lost and the stream handled in order with replays, the expectation of every published policy holds the name, group and settings last sent, its number of writes as version, and is active iff it was never deleted |
| PolicyHistory.LostIff | services/policy/app/main.py:328-358 | exactly which requests take effect without reaching the stream |
| PolicyHistory.ExpectedFrom1 | services/policy/app/main.py:118-125 | whatever was lost, reordered, repeated or forgotten, no expectation has a version below 1 |
| RolloutPipeline.ServeInv | services/policy/app/main.py:185-200 | every request, whatever fails in it, keeps the invariant: the log never says more than the policies do, a version determines its content, what is committed is an earlier stage, and if nothing was lost the in-order table mirrors the published policies |
| RolloutPipeline.ServeExposes | services/policy/app/main.py:213-237 | a request announces what a restart would forget iff it is a publication whose commit does not succeed, of a version that is not committed from before, and its event can be handled |
| RolloutPipeline.RestartIff | services/policy/app/main.py:205-243 | once everything is handled, a restart leaves no expectation ahead of its policy iff nothing uncommitted had been announced |
| RolloutPipeline.RestartGoesBack | services/policy/app/main.py:205-243 | an edit and a publication whose commits fail, and a restart: the expectation is at version 2, the policy at version 1 |
| RolloutPipeline.EventChange | services/policy/app/main.py:336-350 | the event of a publication or an edit is beyond its handler iff its texts or its version do not fit the consumer's database, and otherwise says what the policy says |
| RolloutPipeline.UnstorableBlocks | services/policy/app/main.py:205-224 | once a policy with such a text is announced, the group never drains |
| RolloutPipeline.ProjectionIff | services/policy/app/main.py:265-281 | with no change lost and every entry handled, the active expectations of every group are exactly what the group's devices are told to run iff no announced publication went unrecorded and each policy's handling ended as its log does; no restart having forgotten what was announced |
| RolloutPipeline.DrainedHandled | shared/fleetcommon/events.py:12-17 | in a drained group every entry was handled |
| RolloutPipeline.ProjectionInOrder | services/policy/app/main.py:265-281 | after in-order handling with any replays, they are the same iff no announced publication went unrecorded; no restart having forgotten what was announced |
| RolloutPipeline.DraftIsExpected | services/policy/app/main.py:216-237 | a publication whose write fails after its announcement leaves devices held to a draft that no group is told of |
| InOrder.OrderlyReplicaProjects | shared/fleetcommon/events.py:81-84 | a replica that works alone, takes leftovers before new entries and whose handlers do not fail handles the stream in order with replays, however often it crashes or an acknowledgement fails; so its expectations are what devices are told, iff no publication went unrecorded. The loop does not ensure that leftovers come first: after a restart or a lost acknowledgement they are not idle for 30 seconds, and RestartedOutOfOrder is what follows |
| InOrder.StepInOrder | shared/fleetcommon/events.py:148-211 | each such step keeps the acknowledged entries an initial part of the stream, and the replica's batch and its last handling at the place where that part ends |
| RolloutPipeline.NeverAhead | services/policy/app/main.py:328-358 | whatever was lost, reordered or repeated, an expected version never exceeds the policy's, and a live policy is never retired; no restart having forgotten what was announced |
| RolloutPipeline.Repair | services/policy/app/main.py:336-341 | once a live policy's current version is what was handled last for it, its expectation equals the policy, whatever was lost before; no restart having forgotten what was announced |
| TokenBucket.WindowLaw | services/gateway/app/ratelimit.py:34-49 | while the key is not dropped: a check is admitted iff for no window ending at it the admissions exceed the capacity plus the refill of the window |
| TokenBucket.TimeWindowBound | services/gateway/app/ratelimit.py:34-49 | while the key is not dropped: any window of time admits at most the capacity plus what is refilled during it |
| TokenBucket.GreedyIsOptimal | services/gateway/app/ratelimit.py:30-47 | while the key is not dropped: on every prefix, no other way of admitting within the same limits has admitted more |
| TokenBucket.GreedyIsFeasible | services/gateway/app/ratelimit.py:30-47 | while the key is not dropped: the bucket's own decisions are within those limits |
| BucketLaws.RejectedAreInvisible | services/gateway/app/ratelimit.py:39-49 | while the key is not dropped: deleting any rejected checks from a history changes no later decision and no later token level |
| ExpiringBucket.ExpiringWindowLaw | services/gateway/app/ratelimit.py:34-50 | the exact law of the script with agreeing clocks: a check is admitted iff for no window that starts within the life of its key, and ends at it, the admissions exceed the capacity plus the refill of the window |
| ExpiringBucket.ExpiringIsOptimal | services/gateway/app/ratelimit.py:34-50 | on every prefix, no other way of admitting within the limits has admitted more than the script |
| ExpiringBucket.WindowsAreBoundedIff | services/gateway/app/ratelimit.py:3-7 | in every run any window of time admits at most the capacity plus what is refilled during it, iff an hour's refill is a full bucket, or the capacity is not positive |
| ExpiringBucket.RefusedAreInvisibleIff | services/gateway/app/ratelimit.py:39-50 | deleting rejected checks never changes the decision on a check that is kept, under the same condition and only under it: a rejected check renews the key |
| ExpiringBucket.ExpiryUnobservableIff | services/gateway/app/ratelimit.py:34-50 | with agreeing clocks, dropping idle keys after 3600 seconds changes no decision of any run under the same condition and only under it |
| BucketLaws.TokensAreConserved | services/gateway/app/ratelimit.py:39-49 | while the key is not dropped, for arbitrary timestamps: admissions, tokens left and refill discarded add up to the capacity and the refill of the forward clock jumps, and tokens stay between 0 and the capacity |
| BucketLaws.SkewBound | services/gateway/app/ratelimit.py:79-82 | while the key is not dropped: admissions under skewed clocks are at most the capacity and the refill of the forward jumps |
| SkewedClocks.TokensAreAccounted | services/gateway/app/ratelimit.py:30-50 | for arbitrary times of gateways and server: admissions, tokens left and tokens discarded add up to a full bucket for each time the key was missing and the refill of the forward jumps in between |
| SkewedClocks.GrantsAreBounded | services/gateway/app/ratelimit.py:79-82 | admissions are at most a full bucket for each time the key was missing and the refill of the forward jumps |
| SkewedClocks.OneBucketSufficesIff | services/gateway/app/ratelimit.py:50 | one full bucket and the jumps bound the admissions of every run only if the capacity is zero |
| RetryHint.HintSufficesIff | services/gateway/app/ratelimit.py:50-94 | every caller that the script rejects and that waits for the hint is admitted iff a token takes at most a second or a whole number of seconds, or the hint is at least the hour after which the key is dropped |
| RetryHint.HintAndOneSecond | services/gateway/app/ratelimit.py:89-94 | after the hint more than 1 - rate tokens are there, and one more second always suffices |
| RetryHint.HintIsTight | services/gateway/app/ratelimit.py:93 | the hint is the greatest whole number of seconds within the time of one token, and at least 1 |
| RateLimiter.Limiter.RunScript | services/gateway/app/ratelimit.py:24-53 | the script's steps amount to the decision and the written bucket that the laws are about, found only while its key lives; they renew the key's hour and touch no other key |
| RateLimiter.Limiter.Check | services/gateway/app/ratelimit.py:71-94 | the result of a check, failing open when Redis is not reached, and when its answer is lost although a token was taken |
| RateLimiter.IdentitiesAreIsolated | services/gateway/app/ratelimit.py:9-11 | however requests interleave, each identity's key is what its own requests alone would have left |
| RateLimiter.LimiterNeverForgets | services/gateway/app/ratelimit.py:34-50 | with agreeing clocks, and an hour's refill that is a full bucket, the limiter with expiring keys decides on every request of every identity as the bucket that never expires |
| Verdicts.EvaluateChecks | services/compliance/app/main.py:275-277 | one finding for each failed check and no other, in alphabetical order |
| Verdicts.Evaluate | services/compliance/app/main.py:275-283 | the findings are exactly the failed checks, first and in alphabetical order, and the active policies of the group at a version above the reported one, or above 0 if none is reported; none twice; compliant iff there are none |
| Verdicts.BeforeIff | services/compliance/app/main.py:275-277 | the order is that of the first differing character |
| Verdicts.DriftIff | services/compliance/app/main.py:278-281 | the drift findings of a row, said of its report |
| Verdicts.EvaluatorsAgree | services/compliance/app/main.py:404-421 | if all rows were evaluated against the current expectations, targeted minus converged in /stats is the number of devices holding the drift finding |
| Verdicts.RolloutsAre | services/compliance/app/main.py:404-421 | an answer lists exactly the active policies, with content and version, and counts the devices of the group, and those of them that report at least the version, an unreported one being 0 |
| ReportStore.StatsCounts | services/compliance/app/main.py:404-421 | in every run, the same said of the latest committed report of each device |
| Verdicts.CompliantIff | services/compliance/app/main.py:278-283 | a report is found compliant iff none of its checks failed and it reports, for every active policy of its group, at least its version, an unreported one being 0 |
| Verdicts.StaleReportsUnderstate | services/compliance/app/main.py:404-421 | a row evaluated against earlier expectations never holds a drift finding for an active policy that /stats would not confirm |
| StaleReports.StatsNeverUnderstate | services/compliance/app/main.py:404-421 | in any run of reports and of the consumer group, with each device's latest report evaluated at any earlier moment, /stats counts at least as many devices behind as hold the finding |
| StaleReports.UnreportedNeverCompliant | services/compliance/app/main.py:278-283 | a device that reports nothing for an active policy of its group, announced by the Policy Service, has the drift finding and is not compliant |
| StaleReports.UnreportedNeverConverged | services/compliance/app/main.py:413 | nor is it ever counted as converged |
| Verdicts.OneReportBreaksStats | services/compliance/app/main.py:413 | a single compliant report with a version just beyond 32 bits makes the whole query fail, and one just within does not |
| ReportStore.StatsAnswersIff | services/compliance/app/main.py:404-421 | in every run, the query answers iff the latest committed report of each device carries only 32-bit versions for the active policies of its group |
| ReportStore.StatsAgree | services/compliance/app/main.py:404-421 | in every run, if those reports moreover were evaluated against the current expectations, the query answers, and its count of devices behind is the number holding the finding |
| ReportStore.RowsAreLatest | services/compliance/app/main.py:285-311 | in every run, the device rows are exactly what each device's last committed transaction wrote |
| ReportStore.Replica.IngestReport | services/compliance/app/main.py:255-334 | a report is judged, then its device row and log row are written together, or neither if the database gives up; if the commit's confirmation is lost the rows stand, the caller gets an error and nothing is counted |
| ReportStore.CommitInv | services/compliance/app/main.py:285-322 | a commit keeps table and log in step while other transactions are open |
| ReportStore.PruneInv | services/compliance/app/main.py:464-479 | pruning keeps table and remaining log in step |
| ReportStore.PruneKeepsNewest | services/compliance/app/main.py:464-479 | exactly the newest rows remain, as many as are to be retained or all if there are fewer, and nothing else changes |
| ReportStore.ViewIsFoldOfLog | services/compliance/app/main.py:285-322 | in every interleaving, a device row carries the decision of the device's newest remaining log row and counts all rows it ever had |
| ReportStore.CountIsLogLength | services/compliance/app/db.py:37-60 | until the first prune, the report count is the number of the device's log rows |
| InstanceCounters.CountersAreConserved | services/compliance/app/main.py:68-116 | stored, in memory, in flight and lost counts make up what was counted, plus what a flush that raised after taking effect doubled |
| InstanceCounters.EveryCountIsAccounted | services/compliance/app/main.py:176-326 | and what was counted is each report and each event of the run |
| InstanceCounters.TransientFailuresCostNothing | services/compliance/app/main.py:111-116 | without deaths and misreported flushes nothing is lost or doubled, however many flushes raise |
| InstanceCounters.DeathCosts | services/compliance/app/main.py:76-78 | a replica that dies loses exactly what was in memory and in flight |
| InstanceCounters.Flusher.Flush | services/compliance/app/main.py:92-116 | one turn of the flush loop, with counting going on meanwhile, is a run of the counters' state machine; what was taken is stored, or put back, or both if the statement took effect and raised |
| FleetSimulator.CountsAreConserved | tools/simulator.py:100-106 | for every label, the parent's count, the queued snapshots and the workers' residue make up how often it happened in the run |
| FleetSimulator.TotalsGrowTowardsTruth | tools/simulator.py:354-356 | the parent's sum of each running total never exceeds the number of successes of its kind in the run, and never decreases |
| FleetSimulator.ExactWhenAllFinal | tools/simulator.py:369-405 | when as many final snapshots were merged as there are workers, each total is the number of successes, errors or answers of its kind in the run |
| FleetSimulator.ParentFollowsArrivals | tools/simulator.py:375-382 | in every run the parent holds what its loop makes of the snapshots in their order of arrival |
| FleetSimulator.FinalsComeLast | tools/simulator.py:369-382 | in every run, the arrivals after which all finals have been seen are all arrivals there are |
| FleetSimulator.StoppedByFinals | tools/simulator.py:369-405 | what the merge loop holds when the finals stop it is exact for the run that sent the snapshots |
| FleetSimulator.Stats.TakeSnapshot | tools/simulator.py:87-124 | the snapshot is the one of the state machine: errors and replica hits are drained into it, running totals are copied |
| FleetSimulator.Stats.Send | tools/simulator.py:302-313 | sending a snapshot is the worker's emitting step |
| FleetSimulator.Stats.Record | tools/simulator.py:204-256 | a success adds one to the total of its kind and nothing to any other |
| FleetSimulator.RunFleet | tools/simulator.py:354-382 | the merge loop takes snapshots in order until it has seen all final ones or is cut off |
| FleetSimulator.ReportFleet | tools/simulator.py:354-405 | over the snapshots of any run, each printed total is the number of successes, errors or answers of its kind in the run, unless the loop was cut off before the finals |

## Left out

- GroupSafety.DrainedVersions: holds of an untrimmed stream; trimming at 10000 entries is not modelled, and undelivered entries that are trimmed are lost.
- PolicyService.Service.Update: requests are served one at a time; the code awaits between loading and writing, so concurrent edits of one policy are not covered. Versions are unbounded integers.
- ReportStore.ViewIsFoldOfLog: does not include `last_report_at`, which is taken before the transaction and need not follow commit order.
- TokenBucket.WindowLaw: over exact reals; rounding of floating-point numbers is not modelled.
- GroupDrain.SurvivorDrains: does not take into account for how long entries have been idle; a reclaim may take any pending entries at any moment. Starvation has delivery times.
- Ordering by name or time in queries, percentages, timestamps, and the totals of `/stats`.
- The number that `/maintenance/prune` returns.
- Latency samples, percentiles and the progress line of the simulator.
- Validation of request bodies, HTTP, authentication, proxying, load balancing and health checks.
- The Registry Service, the dashboard and the infrastructure scripts.
