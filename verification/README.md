# A model of the relay miner's coordination code

This project models, in Dafny, the parts of the relay miner where several things race or
fail and the result still has to be right, and proves what those parts are for.

| file | what it models |
|---|---|
| `Reconciler.dfy`, `ReconcilerRuns.dfy` | One reconcile pass over the pending claims and proofs of a group, as the loops that do it; then whole runs of passes over a session, by any replicas, with any chain, store and transaction answers. |
| `ReconcilerOverlap.dfy` | Passes of several replicas over one entry that list it before either writes it back. |
| `PassProtocol.dfy` | The single-flight gate of `OnBlock`, and the chain oracle all groups of a pass share, as state machines over their atomic steps. |
| `BlockFeed.dfy`, `BlockFeedRuns.dfy` | The leader's ordered block reader with bounded catch-up and bounded failures, step by step and in place; every run of it; and the wake-up protocol between the block sources and its loop. |
| `BlockAdapter.dfy`, `BlockRecords.dfy` | The compare-and-swap race between event delivery, polling and seeding; the published records, where a block at a height comes from, and the chain clock. |
| `Leader.dfy` | The lock scripts, the in-process lock, and leader election over a key with a lifetime, with explicit time, lost replies and scripts that run late. |
| `CacheLock.dfy`, `SharedParams.dfy` | The token-guarded cache lock, and the height-keyed shared-parameter cache over any number of replicas. |
| `KeyManager.dfy`, `SignerSync.dfy` | Key reload with its change notifications, the order of concurrent reloads, and how the relayer's signer follows the manager. |
| `KeyringFingerprint.dfy`, `Keyring.dfy` | The keyring directory's fingerprint, down to its text; and the cached load over it, with the directory changing under it. |
| `MemoryBrake.dfy` | The ingestion memory brake over every stream of readings. |
| `Sides.dfy` | Starting and stopping the two sides of the standalone process. |
| `Common.dfy` | Shared small types. |

Concurrent code is a state machine whose `Step` is total: an event that is not enabled
changes nothing, so "for every sequence of events" is "for every interleaving". Code that
updates objects in loops is a class with methods, proved against the same functions the
whole-run theorems are about. Clocks, the chain, the store, the node and the transaction
client are parameters or events: whatever they may answer, including errors, is covered.

## What turned out not to hold

Each of these is stated with the exact condition under which it does hold.

- Passes run at strictly increasing heights in every run if and only if calls of `OnBlock`
  never overlap (`PassGate.PassesGoUpExactlyWhenCallsDoNotOverlap`).
- The resend cap holds over every run if and only if no two passes overlap between listing an
  entry and writing it back (`OverlappingPasses.CapHoldsExactlyWithoutOverlap`); the window
  bound holds however many do. One outcome at most, and a cleared entry staying gone, hold on the
  same condition (`OverlappingPasses.OneOutcomeExactlyWithoutOverlap`,
  `OverlappingPasses.ClearedStaysGoneExactlyWithoutOverlap`). `ReconcilerRuns` is about passes
  that do not overlap.
- At most three uncounted attempts in a row carry one signed transaction over every run at rising
  heights if and only if the store refuses neither puts nor deletes
  (`ReconcilerRuns.ThreeIsTheBoundExactlyWhenWritesWork`); within a run, the fourth carries
  nothing if and only if the third was written back or carried nothing
  (`ReconcilerRuns.AtMostThreeInARow`).
- One pass fetches a supplier's states once in every run if and only if no fetch panics
  (`ChainOracle.OneFetchExactlyWithoutPanics`); everyone who gets an answer gets the same either way.
- A missing height has ten failed reads since the first height was passed if and only if its
  failures do not span that moment (`BlockFeedRuns.TenSinceTheFirstExactlyWhen`); a run in which
  only nine fall after it is `BlockFeedRuns.NineSinceTheFirst`.
- Leadership is exclusive if and only if every leader hears its next answer within less than
  the key's lifetime (`LeaderElection.ExclusiveExactlyWhenAttemptsAreInTime`). The key's
  lifetime is cut to whole seconds, so the configured lifetime is a safe bound if and only if
  it is whole seconds (`LeaderElection.ConfiguredLifetimeIsEnoughExactlyWhenWhole`).
- The in-process lock answers as a key that never expires would if and only if every owner has
  a name (`LeaderLock.LocksAgreeExactlyForNamedOwners`).
- The local map of shared parameters stays within 65 entries over every run if and only if no
  store lies more than 64 below the highest height stored before it
  (`SharedParams.MapStaysWithinExactly`, which gives the largest size for every spread).
- The comment on the keyring cache calls the directory provably unchanged across a load when
  both fingerprints agree. Every hit agrees with a full load over every run if and only if the
  directory does not change and change back inside one load
  (`KeyringProvider.HitsAgreeExactlyWithoutRoundTrips`).
- Equal keyring fingerprints mean equal directories if and only if names have no newline and no
  file is called `dir` or `dir:…` (`KeyringFingerprint.TellsApartExactlyPlainNames`).

## Model

| member | source | states |
|---|---|---|
| InclusionReconciler.Normalised | miner/inclusion_reconciler.go:484-492 | A negative cap becomes zero and no cap stays no cap; a negative margin becomes zero; every other value is kept. |
| InclusionReconciler.GroupReconciler.KeepOrDropBytes | miner/inclusion_reconciler.go:971-987 | By answer: a refusal, or the answer that no proof is required, drops the signed bytes and both deadlines together, and so does any error three or more blocks past the last counted attempt; otherwise they are replaced together by what the answer came with, if anything, or kept. |
| InclusionReconciler.GroupReconciler.Clear | miner/inclusion_reconciler.go:1155-1165 | A settled entry leaves the store; a refused delete leaves it there. |
| InclusionReconciler.GroupReconciler.Rebroadcast | miner/inclusion_reconciler.go:889-1126 | One resend: what the store holds afterwards and what is logged, for every answer of the transaction client and the store, touching no other session. |
| InclusionReconciler.GroupReconciler.BlindResend | miner/inclusion_reconciler.go:643-668 | With the query failed and the window open, every pending session takes one pass with no answer. |
| InclusionReconciler.GroupReconciler.RecordPollErrors | miner/inclusion_reconciler.go:679-703 | Past the close and past the retry height, every pending session is settled as a poll error. |
| InclusionReconciler.GroupReconciler.ReconcileAnswered | miner/inclusion_reconciler.go:706-847 | With an answer, exactly the sessions reached before the budget is spent take one pass each, independently of one another; each that decodes is settled exactly as seen: found on a claim of any kind or a validated proof, rejected on a refused proof, missing past the close on anything else. |
| InclusionReconciler.GroupReconciler.ReconcileGroup | miner/inclusion_reconciler.go:612-848 | A whole group in one pass, for every listing, window and query answer, and each session reached settled exactly as seen. |
| InclusionReconciler.PassSettlesAsSeen | miner/inclusion_reconciler.go:286-307 | For every phase, height and sighting, which outcome one pass records, at which height, and that it records none otherwise; stated by what is on chain, not by the verdict. |
| ReconcilerRuns.GroupPassIsAVisitToEach | miner/inclusion_reconciler.go:612-848 | A pass over a group is one visit to each of its sessions: what is proved of one session's runs holds of every session. |
| ReconcilerRuns.SessionRuns | miner/inclusion_reconciler.go:612-848 | Repeated passes over a session end in the store state and history the run theorems speak of. |
| ReconcilerRuns.BlindResendMissesNothing | miner/inclusion_reconciler.go:643-668 | An answered pass resends exactly when a pass with the query failed would and the answer is "missing", with the same effect: a failed query loses no resend, and adds only what an answer would have settled. |
| ReconcilerRuns.LeavesOnlyOnAnAnswer | miner/inclusion_reconciler.go:706-847 | In every run, at a height not past the close an entry leaves if and only if it was seen on chain as its phase asks and recorded, its proof was seen refused, it was undecodable, or a resend was answered not-required or already-judged; and the delete worked. |
| ReconcilerRuns.PastTheWindowNothingStays | miner/inclusion_reconciler.go:669-847 | A pass that reaches a pending entry past both the close and the retry height ends it if and only if the delete works and a found outcome is recorded. |
| ReconcilerRuns.PastTheWindowGroupIsEmpty | miner/inclusion_reconciler.go:669-847 | After such a pass over a whole group, exactly the sessions that were not pending or met that condition are gone. |
| ReconcilerRuns.CorruptIsOnlyDropped | miner/inclusion_reconciler.go:643-738 | In every run an entry that does not decode yields no outcome and no resend, and leaves with the first visit whose delete works, unless a failed query is to be asked again. |
| ReconcilerRuns.OutcomesAreConserved | miner/inclusion_reconciler.go:726-847 | Over every run, each recorded outcome is matched by a clear that worked or one that failed, and an entry is cleared exactly once or is still there. |
| ReconcilerRuns.AtMostOneOutcome | miner/inclusion_reconciler.go:726-847 | With working deletes an entry yields at most one outcome, and none while it is pending. |
| ReconcilerRuns.OutcomesAreWitnessed | miner/inclusion_reconciler.go:286-307 | In every run a found outcome was recorded by a pass that saw a claim, or in the proof phase exactly a validated proof; a rejected one by a pass that saw a refused proof; a missing one past the close by a pass that saw no claim, or a proof neither validated nor refused; a poll error past the close and the retry height. |
| ReconcilerRuns.SettlesExactlyOnItsSighting | miner/inclusion_reconciler.go:286-847 | And conversely, in every run a pass that reaches an entry that decodes records each outcome if and only if it saw that, and with working writes the entry then leaves. |
| ReconcilerRuns.ResendsExactlyWhen | miner/inclusion_reconciler.go:643-883 | In every run a pass resends if and only if the entry is pending, not seen on chain as its phase asks (or the query failed), strictly inside the window and under its cap; and then it carries what the attempts before have left. |
| ReconcilerRuns.CountsAreKept | miner/inclusion_reconciler.go:1048-1071 | In every run the stored count is the entry's own and one for each counted attempt the store kept; the answers that count are an acceptance, a refusal and a failure that judged nothing. |
| ReconcilerRuns.AttemptsAreInsideTheWindow | miner/inclusion_reconciler.go:878-883 | In every run, by any replica, every resend is strictly after the submission and strictly before the close less the margin. |
| ReconcilerRuns.AttemptsFitTheWindow | miner/inclusion_reconciler.go:518-542 | Without a cap, one replica taking blocks in sequence makes at most as many attempts as there are heights strictly between the submission and the close less the margin. |
| ReconcilerRuns.CapHolds | miner/inclusion_reconciler.go:1048-1071 | Over every run of passes, counted resends exceed what the cap leaves by no more than the counts the store refused to keep; a cap lowered below an entry's count leaves none. |
| ReconcilerRuns.CountedResendsNeverExceedTheCap | miner/inclusion_reconciler.go:1048-1071 | With persisted writes, counted resends never exceed what the cap leaves, across any failover. |
| OverlappingPasses.OverlappingAttemptsAreInsideTheWindow | miner/inclusion_reconciler.go:616-1069 | However many replicas' passes list one entry before writing it back, every resend is strictly inside the window. |
| OverlappingPasses.CapHoldsWithoutOverlap | miner/inclusion_reconciler.go:616-1069 | With no two passes between listing and writing back, the stored count is exactly the resends counted, and the cap holds. |
| OverlappingPasses.OnlyWritesTouchTheStore | miner/inclusion_reconciler.go:616-1069 | Whatever was written since a pass listed its copy, only a delete that worked and a resend written back touch the store, and they overwrite what is there. |
| OverlappingPasses.TwoPassesResendTwice | miner/inclusion_reconciler.go:616-1069 | Two overlapping passes send twice under a cap of one. |
| OverlappingPasses.CapHoldsExactlyWithoutOverlap | miner/inclusion_reconciler.go:616-1069 | Over all runs with working writes the cap holds if and only if at most one pass is between listing and writing back. |
| OverlappingPasses.OneOutcomeExactlyWithoutOverlap | miner/inclusion_reconciler.go:616-847 | Over all runs with working deletes at most one outcome is recorded if and only if no two passes overlap. |
| OverlappingPasses.ClearedStaysGoneExactlyWithoutOverlap | miner/inclusion_reconciler.go:616-1069 | And a cleared entry stays gone on the same condition: an overlapping pass writes it back. |
| ReconcilerRuns.AtMostThreeInARow | miner/inclusion_reconciler.go:971-1071 | In every run at rising heights, whatever the store refuses, an attempt that follows three uncounted ones in a row carries no cached bytes if and only if the third was written back or carried none. |
| ReconcilerRuns.RefusedWritesResendForever | miner/inclusion_reconciler.go:971-1071 | With puts refused to a node that holds the transaction, or deletes refused after an answer that ends the verification, one transaction is resent at every block, any number of times. |
| ReconcilerRuns.ThreeIsTheBoundExactlyWhenWritesWork | miner/inclusion_reconciler.go:971-1071 | No four uncounted attempts in a row carry one transaction, over all runs at rising heights, if and only if the store refuses neither puts nor deletes. |
| ReconcilerRuns.EntryTracksItsHistory | miner/inclusion_reconciler.go:971-1071 | In every run, whatever the store refuses, an entry's last attempt height, hash and signed transaction are exactly what the attempts written back make them. |
| ReconcilerRuns.NextAttemptCarries | miner/inclusion_reconciler.go:971-987 | In every run, by the answer to one attempt, what the next carries. Written back: nothing after a refusal or after any error three or more blocks past the last counted attempt; else the transaction the answer came with; else the same again. Not written back: the same again. |
| ReconcilerRuns.PayloadComesFromOneTransaction | miner/inclusion_reconciler.go:971-987 | In every run the cached bytes and their two deadlines come from one transaction, or are all cleared. |
| PassGate.AtMostOnePassInFlight | miner/inclusion_reconciler.go:518-542 | Whatever the interleaving of calls, at most one pass is in flight. |
| PassGate.LosingCallReturns | miner/inclusion_reconciler.go:518-542 | A call that finds a pass in flight returns without one. |
| PassGate.ClosedStartsNothing | miner/inclusion_reconciler.go:518-542 | Once closed, no call begins, in any continuation. |
| PassGate.NextPassGoesUpExactlyWhen | miner/inclusion_reconciler.go:518-542 | The pass a checked call is about to start lies above all earlier ones if and only if none at its height or higher began since. |
| PassGate.OverlappingCallsGoBack | miner/inclusion_reconciler.go:518-542 | From the start, for any two heights, two overlapping calls run the higher one's pass and then the lower one's. |
| PassGate.SerialCallsGoUp | miner/inclusion_reconciler.go:518-542 | In every run with one call at a time passes ascend, and a call past its check knows the last height. |
| PassGate.PassesGoUpExactlyWhenCallsDoNotOverlap | miner/inclusion_reconciler.go:518-542 | Over all runs with at most a given number of calls under way, passes ascend if and only if that number is at most one. |
| PassGate.SerialGate.OnBlock | miner/inclusion_reconciler.go:518-542 | One caller at a time, in place: the call is a whole call of the protocol, and a pass runs exactly at a height above every earlier one while not closed. |
| ChainOracle.OneFetchOneAnswer | miner/inclusion_reconciler.go:367-410 | For every interleaving and every timeout, one fetch per supplier and one more for each that panicked; and one answer, a remembered error included, for every caller that gets one. |
| ChainOracle.OneFetchExactlyWithoutPanics | miner/inclusion_reconciler.go:389-410 | One fetch per supplier over all runs if and only if no fetch panics. |
| ChainOracle.WaiterGetsAnAnswer | miner/inclusion_reconciler.go:389-410 | No caller is stranded: with the gate empty a waiter gets the remembered answer or fetches it. |
| ChainOracle.WaiterMayGiveUp | miner/inclusion_reconciler.go:389-410 | A waiter whose own time is up leaves the gate and the answer to the others. |
| BlockFeed.ReadBlock | client/block_subscriber.go:297-319 | A reply is a block exactly at the asked height with a non-empty hash, and then with the reply's own hash and time; "not yet" is told from failure. |
| BlockFeed.BlockSubscriber.Observe | client/block_subscriber.go:362-373 | In place, the report step of the run theorems: the height seen only goes up. |
| BlockFeed.BlockSubscriber.FetchLatest | client/block_subscriber.go:754-772 | In place, the fetch step: only the last block changes, and nothing is published. |
| BlockFeed.BlockSubscriber.Begin | client/block_subscriber.go:394-410 | In place, how a pass begins: the target is loaded once, and a pass spans at most 64 heights. |
| BlockFeed.BlockSubscriber.ReadHeight | client/block_subscriber.go:412-438 | In place, the read step of the run theorems: publish, count and stop, or give up at the tenth. |
| BlockFeed.BlockSubscriber.ReadFrom | client/block_subscriber.go:412-449 | The loop reads height by height what the run theorems read. |
| BlockFeed.BlockSubscriber.CatchUp | client/block_subscriber.go:393-449 | One pass in place, of at most 64 reads, is the pass of the run theorems. |
| BlockFeed.TrailingRunIsExact | client/block_subscriber.go:419-434 | The failure count is the exact length of the last run of failures of one height. |
| BlockFeedRuns.PublishedInOrder | client/block_subscriber.go:393-449 | In every run published heights strictly increase, and every block has its own height and a hash. |
| BlockFeedRuns.PassPublishesWhatItReads | client/block_subscriber.go:412-449 | A pass publishes every height it reads an answer for, up to where it ends. |
| BlockFeedRuns.PublishedGrows | client/block_subscriber.go:412-449 | And nothing but what the node answered, as answered, after what was published before. |
| BlockFeedRuns.GapsAreExplained | client/block_subscriber.go:393-449 | In every run a height missing between two published ones was jumped over at least 64 below a reported height; or had exactly ten failed reads in a row and no other since the first height was passed. |
| BlockFeedRuns.AtMostTenFailures | client/block_subscriber.go:412-434 | In every run, since the first height was passed no height fails in more than ten passes, whatever came in between. |
| BlockFeedRuns.HeldForFewerThanTenPasses | client/block_subscriber.go:412-434 | In every run a failing height holds fewer than ten passes, passes that end at a "not yet" in between not starting the count anew. |
| BlockFeedRuns.HeldPassIsCounted | client/block_subscriber.go:412-434 | Every pass that ends held by a height is one more in that count, and one more failure of it. |
| BlockFeedRuns.OtherPassesKeepTheCount | client/block_subscriber.go:412-434 | A pass that ends otherwise leaves that count as it is until the height is behind. |
| BlockFeedRuns.FirstPassReadsTheReport | client/block_subscriber.go:393-438 | The first pass of all reads exactly the reported height. |
| BlockFeedRuns.TenSinceTheFirstExactlyWhen | client/block_subscriber.go:393-449 | In every run a missing height that was not jumped over has at most ten failed reads since the first height was passed, and all ten if and only if the failures around that moment are not both of it. |
| BlockFeedRuns.NineSinceTheFirst | client/block_subscriber.go:394-449 | A run with nine: the height fails first, the fallback fetch stores an older block, and the next pass starts below it. |
| WakeProtocol.NoLostWakeup | client/block_subscriber.go:362-389 | For every interleaving and every report that ever returned, a pass with a target at least that high has started or is still to come. |
| WakeProtocol.NoPassWithoutAReport | client/block_subscriber.go:379-389 | In every run there are at most as many passes as returned reports. |
| WakeProtocol.PendingWakeStartsAPass | client/block_subscriber.go:379-389 | A pending wake is taken as soon as the loop is free, and its pass covers everything seen. |
| WakeProtocol.ReportRaisesAndWakes | client/block_subscriber.go:362-373 | A report nothing overtakes raises the height seen exactly when it is higher, and leaves a wake. |
| WakeProtocol.OvertakenReportStartsOver | client/block_subscriber.go:362-373 | One overtaken between its load and its swap starts over. |
| WakeProtocol.SeenIsTheHighestReport | client/block_subscriber.go:362-373 | Whatever the races, the height seen is at least every height whose report returned, and is itself a reported one. |
| AdapterRaces.AdapterNeverGoesBack | cache/redis_block_client_adapter.go:155-195 | For any interleaving of deliveries, polls and seeds with repeated, lost or reordered heights, the adapter holds the highest height taken and forwards strictly increasing heights. |
| AdapterRaces.OvertakenCallStartsOver | cache/redis_block_client_adapter.go:262-283 | A call overtaken between its load and its swap starts over from the load. |
| AdapterRaces.DeliveryIsForwardedExactlyWhenHigher | cache/redis_block_client_adapter.go:155-195 | A delivery nothing overtakes is taken and forwarded if and only if it is above the held height. |
| AdapterRaces.SeedIsHeldExactlyWhenHigher | cache/redis_block_client_adapter.go:262-294 | A seed nothing overtakes is held if and only if it is above the held height, and is forwarded to nobody. |
| BlockRecords.RecordStore.Publish | cache/block_subscriber.go:288-339 | Each of the three writes stands alone, and every record kept under a height describes that height. |
| BlockRecords.BlockAtHeight | client/block_subscriber.go:323-327 | The first reply that is not "not yet" decides: its block if it is one at the asked height with a hash, and nothing otherwise. |
| BlockRecords.Adapter.Advance | cache/redis_block_client_adapter.go:262-283 | Only a height above the held one moves the adapter. |
| BlockRecords.Adapter.Deliver | cache/redis_block_client_adapter.go:155-195 | In place, a whole delivery of the racing adapter: the event is held and forwarded exactly when it is higher. |
| BlockRecords.Adapter.SeedHeight | cache/redis_block_client_adapter.go:291-294 | In place, a whole seed of the racing adapter: it moves the adapter exactly when it is higher, to a block without a hash. |
| BlockRecords.Adapter.PollLatest | cache/redis_block_client_adapter.go:201-232 | A poll that reads a record above the held height advances the clock, holds that block and forwards it; any other changes nothing. |
| BlockRecords.Adapter.GetBlockAtHeight | cache/redis_block_client_adapter.go:303-321 | The block for a height is the held one if it is there and has a hash, else the record if it has one, else the node's first answer; never another height's, and none only if none of them has it. |
| BlockRecords.ClockShowsOneBlock | cache/block_subscriber.go:169-177 | For any mix of repeated, late and reordered events and seeds, the clock shows the highest height and that block's own time. |
| BlockRecords.SeedAppliesBeforeAnyEvent | cache/block_subscriber.go:472-480 | Before any event, the last seed that names a time is the time. |
| BlockRecords.ChainClock.AdvanceClock | cache/block_subscriber.go:169-177 | The event step of that clock, in place. |
| BlockRecords.ChainClock.SeedBlockTime | cache/block_subscriber.go:472-480 | The seed step of that clock, in place, and when it applies. |
| LeaderLock.KeyTTL | leader/global_leader.go:191 | The key's lifetime is the configured one cut to whole seconds. |
| LeaderLock.ExclusiveLock.Acquire | leader/leader_lock.go:50-58 | The in-process acquire, in place. |
| LeaderLock.ExclusiveLock.Renew | leader/leader_lock.go:60-67 | The in-process renew. |
| LeaderLock.ExclusiveLock.Release | leader/leader_lock.go:69-77 | The in-process release, in place. |
| LeaderLock.ExclusiveLockAgrees | leader/leader_lock.go:45-77 | For owners with a name, every sequence of calls is answered as a key that never expires would answer it. |
| LeaderLock.NamelessOwnerDisagrees | leader/leader_lock.go:50-58 | An owner without a name acquires the in-process lock twice. |
| LeaderLock.LocksAgreeExactlyForNamedOwners | leader/leader_lock.go:45-77 | Both locks answer all call sequences alike if and only if every owner has a name. |
| LeaderElection.GlobalLeaderElector.AttemptLeadership | leader/global_leader.go:186-275 | By reply: a leader stays one unless the renew failed or answered 0, any other elector becomes one exactly on 1; elections and losses alternate, and failures to acquire in a row are counted. |
| LeaderElection.ShortGapExcludes | leader/global_leader.go:153-275 | Over all runs with expiries, lost or ambiguous replies, late scripts and shutdowns, at most one running elector believes it leads when attempts are in time. |
| LeaderElection.LongGapAdmitsTwo | leader/global_leader.go:153-275 | When they may be late, a run with two leaders exists. |
| LeaderElection.ExclusiveExactlyWhenAttemptsAreInTime | leader/global_leader.go:153-275 | Leadership is exclusive over all runs if and only if every leader hears its next answer within less than the key's lifetime. |
| LeaderElection.ConfiguredLifetimeIsEnoughExactlyWhenWhole | leader/global_leader.go:191-228 | Hearing the next answer within the configured lifetime keeps leadership exclusive over all runs if and only if that lifetime is whole seconds. |
| LeaderElection.RenewingLeaderLeadsOn | leader/global_leader.go:186-225 | In every run, a leader whose renews all run and are heard within the gap leads on, through any number of renewals and whatever the others do. |
| LeaderElection.BeliefEndsExactlyWhen | leader/global_leader.go:186-225 | In every run an elector stops believing that it leads if and only if it hears the end of a renew that did not run, was not heard, or found the key run out or another's. |
| LeaderElection.LeadershipLastsWhileRenewed | leader/global_leader.go:153-225 | An elector that renews at the end of every gap leads for as many gaps as it renews in. |
| LeaderElection.FreeKeyMakesALeader | leader/global_leader.go:14-22 | An attempt that runs, is heard and finds no key makes its elector leader, for a lifetime. |
| LeaderElection.ReleaseHandsOver | leader/global_leader.go:160-176 | In every run, a leader that stops and releases leaves the key to the next attempt. |
| LeaderElection.OnlyScriptsTouchTheKey | leader/global_leader.go:14-43 | What every event does to the key: only a script that runs changes it, heard or not. |
| LeaderElection.FailedRenewOrphansTheKey | leader/global_leader.go:186-222 | A renew that failed or was not heard leaves the key with its old owner and no leader. |
| LeaderElection.NobodyLeadsUntilTheKeyExpires | leader/global_leader.go:16-43 | From then until that key's time is up nobody leads, whatever happens. |
| CacheLock.LockLeavesOnlyByExpiryOrItsOwnRelease | cache/lock_release.go:72-76 | In every run, a stored lock disappears only by expiry or by the release of the very call that stored it. |
| CacheLock.OneLiveHolder | cache/keyed_query_lock.go:74-92 | In every run, at most one call holds a lock that is alive. |
| CacheLock.HolderKeepsTheLock | cache/keyed_query_lock.go:74-123 | From winning the lock until its lifetime ends, a holder keeps it whatever the others do. |
| CacheLock.OwnReleaseFrees | cache/lock_release.go:72-76 | A release that finds its own lock does free it. |
| CacheLock.LockIsWonExactlyWhenFree | cache/keyed_query_lock.go:74-92 | In every run a call holds the lock, for its lifetime, if and only if it was free and the answer was heard; it loses if and only if another's was alive; and otherwise returns an error. |
| CacheLock.LockRunsOut | cache/keyed_query_lock.go:74-92 | A lock nobody releases is free exactly once its lifetime has passed. |
| CacheLock.EveryCallEnds | cache/keyed_query_lock.go:74-123 | A loser ends with the other's answer or a query of its own, a holder with its query and a release that frees the lock exactly when it is still its own. |
| SharedParams.LocalCache.Store | cache/shared_params.go:56-71 | Storing adds the entry and drops exactly what lies more than 64 below its height. |
| SharedParams.StoreBoundsTheMap | cache/shared_params.go:29-33 | After a store at most 65 heights up to the stored one remain, and whatever was above it. |
| SharedParams.DescendingStoresAreAllKept | cache/shared_params.go:56-71 | Stores at ever lower heights drop nothing. |
| SharedParams.EntriesLieInABand | cache/shared_params.go:56-71 | Over every run of stores, what is kept lies within the window, or the spread of the stores, below the highest height. |
| SharedParams.MapStaysWithinExactly | cache/shared_params.go:29-71 | Over all runs whose stores lie at most a given spread below the highest height so far, the largest size is one more than the wider of 64 and the spread; so 65 is a bound if and only if the spread is at most 64. |
| SharedParamReplicas.OnlyFinalAnswersAreShared | cache/shared_params.go:148-281 | Across any replicas, lock wins, contended retries, expiries and warmups, every shared value and every entry held as final is its height's final answer. |
| SharedParamReplicas.ServedIsFinalOrCurrent | cache/shared_params.go:148-301 | Every answer served is final, or the caller's own reply, or one its process asked for at the very height it is still at, filed less than thirty seconds before. |
| SharedParamReplicas.FinalAnswerFillsBothLevels | cache/shared_params.go:148-253 | A lookup that misses, for want of an entry or because it may no longer be served, and gets a final answer serves it and leaves it in both levels. |
| SharedParamReplicas.AnswerIsServedAndFiled | cache/shared_params.go:218-281 | An answer without an error, final or not, to the lock holder or not, is served exactly as it came and left in L1 with its finality, the time of filing and the height read before asking; L2 changes only for a lock holder's final answer. |
| SharedParamReplicas.AnswerIsNeverLost | cache/shared_params.go:218-281 | Whatever happens meanwhile, a call whose answer arrived without an error never fails. |
| SharedParamReplicas.NextLookupIsServedExactlyWhen | cache/shared_params.go:161-168 | Whatever happened in between short of replacing the entry, a later lookup by the process is served from it, and the chain is not asked, if and only if it is final and less than thirty minutes old, or no newer block was seen and it is less than thirty seconds old. |
| SharedParamReplicas.SecondLookupDoesNotAsk | cache/shared_params.go:161-281 | After any answer, a second lookup with no newer block and within thirty seconds serves it without asking. |
| SharedParamReplicas.FilingLeavesAloneExactlyWhen | cache/shared_params.go:56-71 | A filing replaces its process's entry for the same height, drops those more than 64 below and keeps the rest. |
| SharedParamReplicas.MissIsAsked | cache/shared_params.go:201-272 | A lookup that misses both levels asks the chain, with the lock or without it, at its process's own height. |
| SharedParamReplicas.SharedIsServed | cache/shared_params.go:171-262 | What L2 holds is served and filed as final, at the first look or the second. |
| SharedParamReplicas.ErrorsEndTheCall | cache/shared_params.go:205-276 | A lock that cannot be asked for and an answer that is an error end the call and change nothing else. |
| SharedParamReplicas.NewerBlockEndsReuse | cache/shared_params.go:295-301 | A newer block ends the reuse of an answer that is not final, and of no other. |
| SharedParamReplicas.TimeEndsReuse | cache/shared_params.go:161-168 | And time ends that of any answer. |
| SharedParamReplicas.WarmupServesTheNextLookup | cache/shared_params.go:309-340 | A process starts with nothing; warming it up lets the next lookup at its height be served from what L2 holds. |
| KeyManager.LastSourceWins | keys/manager.go:275-307 | An address is merged exactly when some source has it, with the key of the last source that has it. |
| KeyManager.LoadAll | keys/manager.go:275-307 | Reading the sources in turn gives that merge, and no errors exactly when every source could be read. |
| KeyManager.AnnouncementsAreEnough | keys/manager.go:358-397 | A listener that applies the changes it is told ends with exactly the new set. |
| KeyManager.Manager.Replace | keys/manager.go:358-397 | Swapping the set tells the callbacks every change once, additions first; and replaying everything ever told from nothing gives the held addresses. |
| KeyManager.Manager.Reload | keys/manager.go:270-422 | With a failed source and a key held nothing changes and nobody is told. Otherwise an address is held afterwards exactly when some source returned it, with the key of the last that did, and the callbacks hear exactly what was added and what was removed. |
| KeyManager.Manager.Notify | keys/manager.go:425-440 | Every change of one kind is told once, in order. |
| KeyManager.Difference | keys/manager.go:358-373 | The addresses added, or removed, each once. |
| KeyManager.KeyLeavesOnlyWhenReadAsGone | keys/manager.go:345-376 | Over any run of reloads, a held key goes only in a reload that read every source and found it in none. |
| KeyManager.ReadAsGoneRemoves | keys/manager.go:270-422 | And such a reload does remove it. |
| KeyManager.HeldIsTheLastGiven | keys/manager.go:345-376 | Over any run of reloads the held set is what the sources gave the last reload that read them all or found no key held: a bad source takes nothing away, and on the first load takes nothing from the others. |
| ReloadOrder.OlderReadNeverOverwritesNewer | keys/manager.go:270-397 | For every interleaving of reloads and edits, a set read earlier is never swapped in over one read later, source by source. |
| ReloadOrder.ReloadAppliesWhatItRead | keys/manager.go:270-397 | A reload that finds the lock free swaps in exactly what each source was when it was read, edits in between included, or abandons it all, and leaves the lock free. |
| ReloadOrder.LockIsKept | keys/manager.go:270-273 | While one reload is under way no other gets the lock, in any run. |
| SignerSync.SupplierSigningKeys | cmd/cmd_relayer.go:380-391 | The rebuilt map has exactly the listed addresses that still had a key when asked for. |
| SignerSync.SignerEndsOnTheHeldSet | cmd/cmd_relayer.go:847-897 | However startup and reloads interleave, once startup is over and no reload is under way the signer holds exactly the manager's keys. |
| SignerSync.UntouchedKeyIsNeverDisturbed | cmd/cmd_relayer.go:847-880 | At every moment from the signer's creation on, a key no reload touches signs, and one never held never does. |
| SignerSync.AnnouncementResyncs | cmd/cmd_relayer.go:847-880 | Announcing one change to a registered callback leaves the signer with exactly the held set. |
| SignerSync.StartupRebuilds | cmd/cmd_relayer.go:890-897 | So does the rebuild at startup. |
| SignerSync.SignerIsCreatedWithTheHeldSet | cmd/cmd_relayer.go:380-391 | The signer is created with exactly the set held then. |
| SignerSync.ReloadAnnouncesTheDifference | keys/manager.go:358-397 | A reload announces exactly the addresses it adds or removes. |
| SignerSync.StepsAreTakenInOrder | cmd/cmd_relayer.go:847-897 | Startup and a reload move on only by their own next step, under the mutex, and store only what they asked for in full. |
| SignerSync.RegistrationAloneMissesAReload | cmd/cmd_relayer.go:890-897 | Without the rebuild after registering, a reload in between stays missed through every continuation in which the held keys do not change, reloads that find the same keys included. |
| KeyringFingerprint.SortSorts | keys/keyring_provider.go:218 | Sorting the lines keeps them all and orders them. |
| KeyringFingerprint.JoinIsInjective | keys/keyring_provider.go:233 | The joined text can be read back into its lines. |
| KeyringFingerprint.LineIsInjective | keys/keyring_provider.go:207-217 | A line names its entry, kind and content. |
| KeyringFingerprint.FingerprintTellsDirectoriesApart | keys/keyring_provider.go:201-234 | Readings with equal fingerprints list the same names and contents. |
| KeyringFingerprint.SortedIsUnique | keys/keyring_provider.go:218 | Lines have one sorted order. |
| KeyringFingerprint.FingerprintsAreEqualExactlyForSameEntries | keys/keyring_provider.go:201-234 | For plain names, fingerprints are equal if and only if the directories hold the same entries, whatever order they were listed in. |
| KeyringFingerprint.DecimalReadsBack | keys/keyring_provider.go:233 | The count in front of the lines is written in decimal. |
| KeyringFingerprint.FileReadsAsSubDirExactlyWhen | keys/keyring_provider.go:207-217 | A file with no newline in its name shares its fingerprint with some sub-directory if and only if it is called `dir` or `dir:…`. |
| KeyringFingerprint.NewlineNamesCollide | keys/keyring_provider.go:218-233 | For any three contents, two different pairs of files with a newline in a name share one fingerprint. |
| KeyringFingerprint.TellsApartExactlyPlainNames | keys/keyring_provider.go:201-234 | Equal fingerprints mean equal directories if and only if neither kind of name is allowed. |
| KeyringProvider.FoundIsFull | keys/keyring_provider.go:511-623 | Asked about a directory that holds still, the keyring yields exactly its selected signing keys. |
| KeyringProvider.LoadNamed | keys/keyring_provider.go:511-553 | Loading by name: a transient failure refuses; an undecodable record is left out unless nothing else decoded. |
| KeyringProvider.LoadListed | keys/keyring_provider.go:554-623 | Loading by listing: a failure on a listed record refuses, and so do records on disk of which none was listed. |
| KeyringProvider.Provider.LoadKeys | keys/keyring_provider.go:440-831 | One load in place: when it hits, what it answers, what it leaves in the cache and what it publishes, as the run theorems below have it. |
| KeyringProvider.AnswersAreOfTheFirst | keys/keyring_provider.go:786-830 | With each answer true at its own moment and no change and change back, equal readings before and after make every answer true of the directory read first, by name and by listing. |
| KeyringProvider.EveryHitIsAFullLoad | keys/keyring_provider.go:440-831 | Over every run of loads without such a round trip, every hit gives exactly the keys a full load of the directory as it is now would. |
| KeyringProvider.HitsAgreeExactlyWithoutRoundTrips | keys/keyring_provider.go:440-831 | By name or by listing, that holds over all runs if and only if round trips are excluded. |
| KeyringProvider.SwallowedIsExact | keys/keyring_provider.go:588-599 | On a directory that holds still the published count is exactly how many records do not decode. |
| KeyringProvider.ListingARestingDirectory | keys/keyring_provider.go:554-743 | The load is refused exactly when a lookup failed on the way, or there are records and none decodes; otherwise it applies the directory's signing keys, none for an emptied keyring. |
| KeyringProvider.NamingARestingDirectory | keys/keyring_provider.go:511-743 | By name, likewise, over the named records. |
| KeyringProvider.LoadingARestingDirectory | keys/keyring_provider.go:440-743 | A whole load, by name or by listing as configured, of a directory that holds still is refused exactly then, and otherwise gives exactly the selected signing keys. |
| KeyringProvider.UnreadableIsRefused | keys/keyring_provider.go:440-599 | A load that cannot read what it starts from is refused and leaves the cache alone. |
| KeyringProvider.NextLoadHitsExactlyWhenUnchanged | keys/keyring_provider.go:440-831 | After an applied load nothing changed under, the next load hits if and only if it finds the same entries, in whatever order, and then gives what that load gave. |
| KeyringProvider.RacedLoadIsNeverReused | keys/keyring_provider.go:786-830 | No later load hits what a load that changed underneath leaves in the cache. |
| KeyringProvider.RoundTripIsRemembered | keys/keyring_provider.go:786-830 | A load that read a directory changed and changed back is remembered under the one it did not read. |
| MemoryBrake.ThresholdsAreOrdered | internal/memlimit/memlimit.go:53-63 | The brake closes an eighth of the limit below it, at most 1 GiB, and reopens half as much again below that; the thresholds never wrap and are apart exactly from sixteen bytes up. |
| MemoryBrake.RebuildAdmission.Evaluate | miner/ingestion_memory_brake.go:78-145 | One evaluation in place: the brake's next state, whether a collection is forced, and how long it was closed. |
| MemoryBrake.OveragesAreTheLastRun | miner/ingestion_memory_brake.go:89-94 | The counter is the exact length of the last run of readings over the limit. |
| MemoryBrake.ClosesExactlyWhen | miner/ingestion_memory_brake.go:89-118 | In every run, the brake closes if and only if two evaluations in a row were over the limit or the live heap is above the threshold. |
| MemoryBrake.ReopensExactlyWhen | miner/ingestion_memory_brake.go:121-145 | In every run, it reopens if and only if a stretch of evaluations within bounds, as read or after a collection forced for want of one for a minute, all of it while closed, spans at least ten seconds. |
| MemoryBrake.EveryClosingLastsTenSeconds | miner/ingestion_memory_brake.go:121-145 | Every closed period lasts at least ten seconds. |
| StandaloneSides.SecondStartsAfterFirstServes | cmd/standalone_sides.go:104-120 | For every order of events, the second side starts only once the first reported that it serves. |
| StandaloneSides.FirstIsStoppedLast | cmd/standalone_sides.go:96-169 | The first side is told to stop or aborted only when the second never started or has finished. |
| StandaloneSides.ReturnsOnlyWhenAllFinished | cmd/standalone_sides.go:104-169 | The runner returns only when every side it started has finished. |
| StandaloneSides.WaitsOnlyOnASideToldToStop | cmd/standalone_sides.go:104-169 | A side waited on alone was told to stop in a way it can see, its result was not received before, and once it finishes the runner moves on. |
| StandaloneSides.SelectIsNeverStuck | cmd/standalone_sides.go:104-169 | Every select goes on once a side it watches stops. |
| StandaloneSides.ErrorNamesExactlyTheFailed | cmd/standalone_sides.go:84-169 | The error names a side exactly when it stopped unasked, or failed and was not a startup the shutdown cancelled. |
| StandaloneSides.CleanExitExactlyWhen | cmd/standalone_sides.go:84-169 | In every run the exit is without error if and only if a signal ended it and every side whose startup it did not cancel ended cleanly. |
| StandaloneSides.SignalEndingWasSignalled | cmd/standalone_sides.go:96-169 | In every run a shutdown for a signal follows one, and the runner takes it once. |
| StandaloneSides.SignalledRunEnds | cmd/standalone_sides.go:104-169 | Sides that serve, and stop in order after a signal, make an exit whose error names exactly those that did not end cleanly. |

## Left out

- The fan-out of a pass over worker goroutines, the ownership filter and the group listing (`runPass`): each group is reconciled by one goroutine, and the store holds one entry per session.
- ReconcilerRuns.CapHolds: is about passes that list an entry and write it back before another lists it, as the ownership of suppliers arranges; `OverlappingPasses` says what holds without that.
- Expiry of a pending entry by its own lifetime in the store, and 64-bit overflow of heights.
- Bounded subscriber channels: forwarding is the attempt, and a full channel's drop is not modelled. The subscription and poll loops are events that report heights, with no backoff.
- SharedParamReplicas.ServedIsFinalOrCurrent: the query layer's own cache below the chain client is not modelled, so an answer's age is counted from when it was filed.
- The application, service and account caches around the same lock, and their lifetimes.
- Leadership callbacks; the elector machine has what an elector believes and what the key holds.
- KeyringProvider.EveryHitIsAFullLoad: takes the keyring at its word for the directory at the moment asked, or a transient failure; a read that failed otherwise and was reported as an undecodable record is not modelled.
- Key material, addresses, SHA-256 and the record format: a key stands for its address, a file's content for its hash, and what a record decodes to is a parameter.
- Watching key files, the reload timer, and panics inside a side beyond the error they become.
- The compaction admission around the memory brake, and the one-second ticker: any stream of readings is allowed.
- Logging, metrics, configuration, encoding, HTTP, gRPC and command wiring.
