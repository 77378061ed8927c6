# Proofs about the orbix scheduler's protocols

Orbix runs cron jobs on several nodes that share nothing but an etcd store. Nodes elect a leader;
the leader turns due fires into *tickets*; any node claims tickets, runs them, and publishes results;
each node mirrors the results into its own table. This project models those protocols in Dafny and
proves what they guarantee, under every interleaving of nodes, crashes and lease expiries, and, where
the code promises less than its documentation, proves that by a concrete run or an exact condition.

`dafny verify dfyconfig.toml` checks the whole project.

## How the model is built

* `Etcd.dfy` is the store: one global revision, entries with value, mod revision, version and lease,
  atomic compare-then-else transactions, leases whose end deletes their keys. A put under a dead lease
  is answered with an error and changes nothing.
* `Tickets.dfy` holds the records, keys and transactions of the queue; `Keys.dfy` relates keys as data
  to the text the store really has. `QueueMachine.dfy` is the queue as a state machine whose step is
  *one store call of one node*: a node may act on any read it ever made (`seen`), so every
  interleaving, delay and crash between two calls is some run of the machine. `books` count what
  happened to each ticket; no step looks at them.
* `QueueInvariant`, `AtomicTickets`, `QueueSafety`, `QueueOverlap`, `QueueAccounting`, `QueueResults` and
  `QueueCounterexamples` prove the queue's properties over all runs. A theorem that needs a guard needs it of the
  ticket or the job it speaks of only, whatever happens to others.
* `QueueCode.dfy`, `SchedulerCode.dfy`, `ElectionCode.dfy`, `Jobs.dfy` (class `Repo`), `History.dfy`
  (class `Mirror`) and `Worker.dfy` (class `Slots`) are the code itself, loop by loop, on objects whose fields it
  updates. What other nodes do is a schedule (`gaps`, `turns`) consumed before each call; every statement
  holds for every schedule. Their contracts tie each method to steps of the machines, so the theorems about
  runs apply to the code.
* `RetryDelay` and `Retries` are about the delay of a retry and the polls that come after it; `Watermarks`, `CatchUp`
  and `CatchUpTheorems` about catching up; `Election` about leadership;
  `CronMask`, `Text`, `CronParser`, `CronMeaning`, `CronSchedule`, `CronExpression` and `CronReading` about cron;
  `CronCatchUp` puts the two together.

Times are whole seconds since the Unix epoch, and nanoseconds for "now". The 64-bit wrap-around is
written out wherever the code can reach it (the backoff, the steps of a cron field).

## Where the code says less than its documentation

* *"The ticket never left the queue"* (README.md:75): not for a running no-overlap ticket. Its own lock makes
  another node's scan skip it: `QueueCounterexamples.SkippedWhileRunning`. For all other tickets it holds.
* *"Completion re-verifies claim ownership; replacement run never corrupted"* (README.md:80): ownership is by node id
  (`QueueAccounting.EndsClaimIff`), so an older run on the same node finishes the new claim (`QueueCounterexamples.AttemptTurnedBack`), and if it succeeds
  or gives up the ticket is gone while its replacement runs. A run ends its own claim, and a
  requeue keeps the count, if and only if no claim of the ticket was won since: `QueueAccounting.FinishEndsOwnClaimIff`,
  `QueueAccounting.RequeueKeepsCountIff`.
* *"Duplicate is a no-op"* (README.md:77) and *"enqueue is at-most-once"* (README.md:104): only while the ticket is still
  pending; a leader with an old watermark enqueues a finished fire again and takes the watermark back:
  `CatchUpTheorems.StaleEnqueue`. As long as the ticks on a job do not interleave it holds, and for a fire nothing else is
  asked: `Watermarks.EnqueuedOnce`, `CatchUp.LogIncreases`.
* *"New leader replays the gap"* (README.md:78): the slot a watermark is armed with is never enqueued
  (`CatchUpTheorems.ArmedSlotNeverFires`), and a refused enqueue followed by a successful one leaves a gap
  (`CatchUpTheorems.GapFreeIff`).
* *"Split-brain impossible"* (README.md:79): two nodes can lead at once while one has not noticed that its lease
  ended: `Election.TwoNodesLeadAtOnce`, and any leader may come to it: `Election.AnyLeaderMayBeDoubled`. Exactly when: a
  second node that bids leads beside the first if and only if the key is gone (`Election.SecondLeaderIff`), and a leader
  holds the key if and only if its lease is alive (`Election.LeaderHoldsIff`), so leaders with live leases exclude each
  other (`Election.LeaderExclusion`). Only the leader key is fenced by a lease; enqueues compare neither the leader key
  nor the old watermark.
* The claim's two keys may get two leases, and then a job can run twice at once: `QueueCounterexamples.TwoLeasesTwoRuns`.
  One lease for both is exactly what keeps lock and claim together: `QueueOverlap.TogetherIffOneLease`.
* A sweep that abandons a ticket writes over the result of the attempt it read, be it a failure or even a success:
  `QueueResults.SweepHidesFailure`, `QueueResults.LateSweepHidesSuccess`; exactly when something is written over:
  `QueueResults.OverwritesIff`. A mirror that has the earlier result keeps it (`History.RowsNeverChange`), one that
  comes later has the last.
* The hour and minute jumps of the cron search truncate absolute time: exact for all second-granular schedules if and
  only if the zone's clock is steady within UTC hours and minutes (`CronSchedule.SearchExactIffSteady`). In a zone five
  and a half hours ahead a job for 06:00:00 is practically never found (`CronSchedule.SixOClockInIndia`).
* A cron step close to 2^63 is accepted and wraps round: `CronMeaning.HugeStepMarksOddMinutes`; exactly when the bits are
  right: `CronMeaning.FaithfulIffSound`. It may even leave the field's bounds: `CronMeaning.HugeStepMarksDayZero`;
  exactly when: `CronMeaning.InsideIff`.
* The parser is *"Vixie-style"* (README.md:87), but of a day field that starts with a star the rest is passed over: `*/2` in
  the day of month restricts nothing (`CronExpression.SteppedStarRestrictsNothing`). The days are those of Vixie's rule
  if and only if every such field lists all days: `CronExpression.VixieIff`.
* An update or toggle brings a deleted job back: `Jobs.DeletedJobComesBack`; it stays away exactly when nobody had read
  it or no such write follows: `Jobs.GoneForGoodIff`.
* A result collected while the mirror is disconnected never gets a row: `History.CollectedUnseenIsLost`; exactly which do:
  `History.NewRowIff`, `History.LostIff`.

## Model

| member | source | states |
|---|---|---|
| `Etcd.CommitKeeps` | internal/queue/claim.go:59-72 | Any transaction, whichever branch it takes, keeps the store sound and only extends it: an entry not written by it is unchanged |
| `Etcd.LeaseStepKeeps` | internal/cluster/session.go:164-180 | Granting and ending a lease keep the store sound and extend it; the keys of an ended lease are gone |
| `QueueInvariant.SameModRevSameRead` | internal/queue/claim.go:61 | Two reads of any key, any run of any nodes apart, that show one mod revision show the very same entry: what makes read-then-transact sound |
| `Keys.KeysAreInjective` | internal/queue/queue.go:33-44 | Different queue keys have different texts, whatever the stamp, for any injective way to write instants |
| `Keys.ScansMeetTheirKind` | internal/queue/queue.go:16-22 | A scan by prefix meets keys of its own kind and no others |
| `Keys.KeyTexts` | internal/queue/queue.go:16-44 | The text of every kind of key, spelled out |
| `Keys.ClaimIsReadBack` | internal/queue/snapshot.go:49-67 | The listing of claims, which cuts what follows the prefix at its first `@`, gets back the job as a number and the instant, for every job id up to 2^63 |
| `QueueEffects.EnqueueEffect` | internal/queue/queue.go:46-60 | An enqueue adds exactly the pending entry, if the ticket is not pending, and nothing otherwise |
| `QueueEffects.EnqueueFireEffect` | internal/queue/queue.go:62-79 | A fire's ticket and its watermark go in together or not at all, depending on the ticket key alone |
| `QueueEffects.ClaimEffect` | internal/queue/claim.go:51-74 | A claim wins exactly when the ticket is unclaimed, the read is current, the lock is free and the leases live; it then writes claim, ticket and lock, else nothing |
| `QueueEffects.SkipEffect` | internal/queue/claim.go:81-101 | A skip whose read is current removes the pending entry and publishes a skipped result, claimed or not |
| `QueueEffects.FinishSuccessEffect` | internal/queue/queue.go:127-149 | A success by the claim's owner removes pending, claim and lock and publishes; by anyone else it only publishes a result |
| `QueueEffects.FinishFailureEffect` | internal/queue/queue.go:151-192 | A failure by the owner requeues with a retry time or gives up for good, releasing claim and lock; by anyone else it only publishes |
| `QueueEffects.FailureOutcome` | internal/queue/queue.go:151-182 | In numbers: after a failure by the owner the ticket is pending if and only if its attempt is not above its retries; whoever it is by, the published status is a permanent failure if and only if it is above |
| `QueueEffects.AbandonEffect` | internal/queue/queue.go:194-215 | An abandon removes an unclaimed ticket and publishes its result, and does nothing to a claimed one |
| `QueueInvariant.InvRun` | internal/queue/queue.go:46-222 | Every interleaving keeps the store, the reads, the runs in progress and the books consistent with one another |
| `AtomicTickets.StepRefines` | internal/queue/claim.go:17-74 | Whatever step any node takes, every ticket makes at most one action of the atomic machine queued / running under an owner / gone |
| `AtomicTickets.RunRefines` | internal/queue/queue.go:127-192 | Refinement over whole runs: the phases of each ticket along any run are a run of the atomic machine |
| `QueueSafety.RemovalPublishes` | internal/queue/queue.go:133-138 | The only way out of pending is a transaction that publishes a terminal result in the same revision |
| `QueueSafety.RemovalStatus` | internal/queue/queue.go:127-215 | Who takes a ticket out of pending, and what the result written in the same revision says: a success, a permanent failure, a skip or an abandon, and nothing else does |
| `QueueSafety.TerminalIffGone` | internal/queue/queue.go:127-182 | A finish by the owner publishes a terminal status if and only if it takes the ticket out of pending: success or permanent failure, as against failed or timed out |
| `QueueSafety.NoTicketLost` | internal/queue/queue.go:163-182 | Between a state where a ticket is pending and one where it is not, some step removed it with a terminal result |
| `QueueSafety.EveryTicketAccountedFor` | internal/queue/queue.go:207-213 | From an empty store, every ticket ever enqueued is pending or was removed with a terminal result |
| `QueueSafety.SafeRun` | internal/queue/claim.go:59-66 | In every run that does not enqueue the ticket again, successfully, as another: every copy of it shows what was enqueued (in whole, or the flag alone), and without the no-overlap flag it is pending whenever it is claimed |
| `QueueSafety.RunsWhatWasEnqueued` | internal/queue/claim.go:51-74 | In every such run, whatever the retries: every later run of a ticket, and the ticket while it is pending, has the name, command, timeout, retries and flags it was enqueued with |
| `QueueSafety.ExpiryLeavesClaimable` | internal/queue/claim.go:94-99 | A ticket without the flag whose claim expires is queued again, unchanged, for anyone to claim |
| `QueueSafety.GoneStaysGone` | internal/queue/queue.go:133-138 | A ticket that is gone stays gone until it is enqueued again |
| `QueueOverlap.ExclusiveRun` | internal/queue/claim.go:67-71 | For any job whose tickets keep their flag and whose claims take one lease each, every interleaving keeps the lock in step with its one claimed no-overlap ticket |
| `QueueOverlap.LockIsHeldByTheRunner` | internal/queue/queue.go:217-222 | After every such run from the empty store: the lock of the job is held exactly when a no-overlap ticket of it is claimed, by the same node and lease, and there are never two |
| `QueueOverlap.TogetherIffOneLease` | internal/queue/claim.go:64-70 | Of any won no-overlap claim: no lease expiry parts the claim from the lock if and only if both were put under one lease |
| `QueueAccounting.RetryBounds` | internal/queue/queue.go:151-181 | After every run in which the ticket is enqueued once and no node has two live runs of it: a pending ticket's attempt is its number of claims, requeues are at most the retries, claims at most retries + 1 + expired claims |
| `QueueAccounting.GivenUpWhenSpent` | internal/queue/queue.go:151-182 | After every such run, when a run that owns its claim fails: the ticket stays pending if and only if its claims are not more than the retries allowed; given up without an expired claim, it has had exactly retries + 1 claims and every retry was made |
| `QueueAccounting.AttemptsDistinct` | internal/queue/queue.go:42-44 | Under the same guard, of two won claims of one ticket the later has the larger attempt number, so no two runs publish under one result key |
| `QueueAccounting.RequeueKeepsCountIff` | internal/queue/queue.go:140-184 | With no guard on the run: a run started by a counted claim that finishes however much later and requeues its ticket leaves the attempt equal to the number of claims if and only if no claim of the ticket was won in between |
| `QueueAccounting.ClaimStandsIff` | internal/queue/claim.go:59-66 | Between any two states of any run, a standing claim of a ticket is the very one that stood before if and only if no claim of it was won in between |
| `QueueAccounting.EndsClaimIff` | internal/queue/queue.go:127-192 | A finish takes the claim key if and only if the key names its node, whichever run put it there; the ticket then stays pending only if it is requeued |
| `QueueAccounting.FinishEndsOwnClaimIff` | internal/queue/queue.go:127-192 | Success, requeue and giving up alike, with no guard on the run: the claim a finishing run ends is the one that started it if and only if no claim of the ticket was won since |
| `QueueResults.ResultStep` | internal/queue/queue.go:42-44 | Any step of any node: what it publishes for an attempt stands, a collected result is gone, every other result is as it was |
| `QueueResults.ResultIs` | internal/queue/queue.go:127-215 | After any run from the empty store the result of an attempt is what the last step to publish one published, if and only if it was not collected since |
| `QueueResults.OverwritesIff` | internal/queue/queue.go:194-215 | A result, terminal or not, replaces an earlier one if and only if some earlier step published for that attempt and its result was not collected since |
| `QueueResults.LateSweepHidesSuccess` | internal/scheduler/scheduler.go:80-105 | In every state with a run in progress: a sweep that read the ticket and abandons it after it succeeded turns the success into an abandoned result |
| `QueueResults.SweepHidesFailure` | internal/scheduler/scheduler.go:80-105 | In every state with a run in progress: a ticket that fails, is requeued and then swept has the result of its failed attempt replaced |
| `QueueCounterexamples.SkipOfRunning` | internal/queue/claim.go:42-46 | Any running no-overlap ticket can be taken out of pending by a read and a skip of any node |
| `QueueCounterexamples.SkippedWhileRunning` | internal/queue/claim.go:94-99 | A concrete run that skips a running ticket, its own lock being the one seen held |
| `QueueCounterexamples.AttemptTurnedBack` | internal/queue/queue.go:184-187 | A concrete run in which an old run on the same node finishes the new claim and turns the attempt back |
| `QueueCounterexamples.TwoLeasesTwoRuns` | internal/queue/claim.go:64-70 | With two leases in one claim, two no-overlap tickets of a job run at once |
| `QueueCounterexamples.SweptAfterSuccess` | internal/queue/queue.go:194-215 | A concrete run from the empty store whose successful attempt ends up with an abandoned result |
| `QueueCode.Range` | internal/queue/claim.go:18-21 | The scan returns the first entries in key order, all of them when they fit the limit |
| `QueueCode.Queue.Enqueue` | internal/queue/queue.go:46-60 | The method makes exactly the machine's enqueue step and reports whether the ticket was absent |
| `QueueCode.Queue.EnqueueFire` | internal/queue/queue.go:62-79 | The method makes exactly the machine's fire step and reports whether the ticket was absent |
| `QueueCode.Queue.AdvanceWatermark` | internal/queue/queue.go:81-86 | The method makes exactly the machine's watermark step |
| `Watermarks.WatermarkStep` | internal/queue/queue.go:81-97 | What a watermark read finds is what the last advance or won fire of that job put, until the job is deleted: no other step of any node moves it |
| `QueueCode.Queue.Claim` | internal/queue/claim.go:51-74 | The claim wins exactly when its comparisons hold and its leases live, reads the lease once per key, and raises the attempt whether it wins or not |
| `QueueCode.Queue.SkipStale` | internal/queue/claim.go:81-101 | The method makes exactly the machine's skip step, under the attempt the lost claim raised |
| `QueueCode.Queue.TryTicket` | internal/queue/claim.go:35-46 | Under interference a win is a win on the ticket as it stood; undisturbed, it claims what is claimable and skips what its lock blocks |
| `QueueCode.Queue.ClaimNext` | internal/queue/claim.go:17-49 | A returned ticket was queued, due and unclaimed in the very state the winning transaction found; every ready ticket of the window is tried in turn, up to the first that is won or whose claim is answered with an error; left alone with live leases, the poll returns one if and only if its window has an unclaimed ticket whose lock, if needed, is free and whose retry time is absent or not after `now`, takes the first such, and removes exactly the blocked ones before it |
| `QueueCode.PollLooksAt64` | internal/queue/claim.go:15-21 | The window of one poll is 64 tickets, or all that are pending when there are fewer |
| `QueueCode.Queue.FinishSuccess` | internal/queue/queue.go:127-149 | The method makes exactly the machine's step for a successful run |
| `QueueCode.Queue.FinishFailure` | internal/queue/queue.go:151-192 | The method makes exactly the machine's step for a failed or timed-out run: by the owner, the ticket stays pending exactly while its attempt is not above its retries, and the status published says which |
| `QueueCode.Queue.Abandon` | internal/queue/queue.go:194-215 | The method makes exactly the machine's abandon step |
| `QueueCode.TurnPasses` | internal/queue/claim.go:42-46 | Passing over one more ticket that cannot be taken removes it if it is blocked and leaves everything else as it was |
| `RetryDelay.BackoffExact` | internal/queue/queue.go:119-125 | Up to attempt 33 the delay computed on 64-bit integers is min(2^attempt, 300) seconds |
| `RetryDelay.BackoffWrapsAt34` | internal/queue/queue.go:119-125 | The bound is sharp: at attempt 34, which no validated job reaches, the product wraps and the retry time lies in the past |
| `RetryDelay.DelayMonotone` | internal/queue/queue.go:119-125 | The delay never falls as attempts rise, between one second and 300 |
| `RetryDelay.DelaySeconds` | internal/queue/queue.go:119-125 | The delays one by one: 2, 4, 8 and so on to 256 seconds, and 300 from the ninth attempt on |
| `RetryDelay.RequeueWaits` | internal/queue/queue.go:171-181 | A requeue of a job with at most ten retries is not due before its backoff has passed, up to the second it is rounded to |
| `Retries.RetryIsFreeIff` | internal/queue/claim.go:29-34 | A retry not touched since its failure at `now` is free for a poll, its lock being free, if and only if the poll comes at or after `now` plus the delay of its attempt, rounded down to the second |
| `Retries.RetryIsTaken` | internal/queue/claim.go:28-48 | From that delay on an undisturbed poll with the retry in its window takes a ticket: the retry, or one that comes before it |
| `Watermarks.DisciplinedRun` | internal/scheduler/catchup.go:17-36 | As long as ticks on the job do not interleave and the job is not deleted, whatever becomes of other jobs, its watermark never goes back and every scheduled ticket of it lies at or before it |
| `Watermarks.EnqueuedOnce` | internal/queue/queue.go:62-79 | Over any run whose ticks on the job do not interleave, whatever becomes of the ticket, of its runs and of other jobs, a ticket is never enqueued a second time (a manual stamp being drawn afresh) |
| `Watermarks.OnceAndBounded` | internal/queue/queue.go:62-79 | Over such a run from the empty store the ticket is enqueued exactly once; if it also starts fresh and no node has two live runs of it, its claims stay within retries + 1 + expired claims |
| `Watermarks.OneRunAtATime` | internal/queue/claim.go:64-71 | Over such a run whose claims take one lease each, the lock of the job is held exactly when a no-overlap ticket of it is claimed, and never are two |
| `Watermarks.CalmRunsAreAccounted` | internal/scheduler/catchup.go:54-80 | Such runs meet the enqueue-once condition of the retry accounting |
| `CatchUp.CollectsFirstEight` | internal/scheduler/catchup.go:38-53 | A tick collects exactly the first eight due fires, or all of them when there are fewer |
| `CatchUp.FiresUnique` | internal/scheduler/catchup.go:38-53 | A gap-free ordered stretch of a schedule is determined by its two ends |
| `CatchUp.LogAboveWatermark` | internal/scheduler/catchup.go:17-36 | No fire of a job at or before its watermark is enqueued by any later run of serialized ticks on the job |
| `CatchUp.LogIncreases` | internal/scheduler/catchup.go:54-80 | Under every policy the fires of a job are enqueued in increasing order, so none twice, as long as ticks on the job do not interleave |
| `SchedulerCode.Scheduler.CollectFires` | internal/scheduler/catchup.go:38-53 | The loop's result is the stretch of due fires and the first one ahead; it fails only at an instant after which no fire is found |
| `SchedulerCode.Scheduler.EnqueueFire` | internal/scheduler/catchup.go:83-101 | Unless the store refuses, and if no other leader is at the job, the fire's ticket is pending with the job's own settings and the watermark is the one given; no other fire of the job is enqueued, and other jobs are left alone |
| `SchedulerCode.Scheduler.Advance` | internal/scheduler/catchup.go:103-107 | The watermark moves unless the store refuses, nothing is enqueued, and other jobs are left alone |
| `SchedulerCode.Scheduler.RunAllDue` | internal/scheduler/catchup.go:63-69 | The fires whose enqueue was not refused are enqueued in order, each after a yes to the question whether the node still leads and none after the first no, and the watermark is the last of them |
| `SchedulerCode.Scheduler.Arm` | internal/scheduler/catchup.go:22-36 | A job without a watermark gets the first fire ahead as its watermark, and nothing is enqueued |
| `SchedulerCode.Scheduler.ApplyPolicy` | internal/scheduler/catchup.go:54-80 | What each policy enqueues of the collected fires and where it leaves the watermark |
| `SchedulerCode.Scheduler.ScheduleJob` | internal/scheduler/catchup.go:12-81 | One job's tick arms, catches up as the policy says, or, only when no next fire is found or arming is refused, does nothing; whatever others do to other jobs meanwhile, and leaving those alone itself |
| `SchedulerCode.Scheduler.TickOnce` | internal/scheduler/scheduler.go:46-65 | Every enabled job is visited once, in list order, each after a yes of its own to the question whether the node leads, up to the first no; then the sweep, likewise; every job the others leave alone is served and stays disciplined, whatever they do to the rest; undisturbed, exactly the unclaimed orphans of the window are swept |
| `SchedulerCode.EnabledAre` | internal/scheduler/scheduler.go:53-61 | The jobs visited are those of the list that are enabled, and no others, in the order of the list |
| `SchedulerCode.Scheduler.SweepOrphans` | internal/scheduler/scheduler.go:80-105 | Whatever the others do, the sweep lists the first 256 tickets once and abandons in order exactly the orphans (not manual, of no enabled job) among those it came to before the first no to the question whether it leads; undisturbed, a listed ticket is still pending if and only if it is manual, claimed or of an enabled job |
| `SchedulerCode.OrphansAre` | internal/scheduler/scheduler.go:80-97 | The tickets a sweep drops are those listed that are neither manual nor of an enabled job, in whatever state |
| `SchedulerCode.ManualIsSpared` | internal/scheduler/scheduler.go:94 | Whatever happened between the listing and the abandon, no abandon of a ticket that is not manual takes a manual one out of pending, as long as that was not enqueued again as another |
| `SchedulerCode.SweepLooksAt256` | internal/scheduler/scheduler.go:87 | The window of one sweep is 256 tickets, or all that are pending when there are fewer |
| `SchedulerCode.Scheduler.PendingTickets` | internal/queue/snapshot.go:19-38 | The listing is the first pending tickets in key order, each as it stands after the others' turn; a limit that is not positive stands for fifty |
| `SchedulerCode.InertGoesNowhere` | internal/scheduler/scheduler.go:46-65 | Other nodes that make no scheduler move on the job neither move its watermark nor enqueue a fire of it, whatever else they do |
| `CatchUpTheorems.RelayIsExact` | internal/scheduler/catchup.go:63-69 | Over any number of `run_all` ticks by any leaders, each as `ScheduleJob` leaves it and cut short anywhere, with other nodes at work between: what was enqueued is the schedule from the first watermark to the last, gap-free, ordered, without repetition |
| `CatchUpTheorems.TicksCatchUp` | internal/scheduler/scheduler.go:14 | Over such a relay, of the m fires due at `now` the enqueued ones are the first, at least 8 for each complete tick at `now`, or all: so ceil(m/8) complete ticks bring in all m, whatever else went on |
| `CatchUpTheorems.ServedIsPart` | internal/scheduler/catchup.go:12-81 | What `ScheduleJob` did to an armed job is a tick of such a relay, a complete one if leadership lasts and every search answers |
| `CatchUpTheorems.Ticks` | internal/scheduler/scheduler.go:46-65 | The code itself, tick after tick on a job with other nodes acting before every call, runs such a relay and enqueues exactly the schedule between its two watermarks |
| `CatchUpTheorems.RunAllTickExact` | internal/scheduler/catchup.go:38-69 | With a store that works, a tick cut short anywhere is one leg of such a relay, and a complete one collects all it found |
| `CatchUpTheorems.GapFreeIff` | internal/scheduler/catchup.go:94-97 | A `run_all` tick is gap-free if and only if no enqueue of it succeeds after one was refused |
| `CatchUpTheorems.LatestCollapses` | internal/scheduler/catchup.go:70-79 | `run_latest` on one to seven due fires enqueues exactly the greatest and marks the first fire after now |
| `CatchUpTheorems.LatestForGood` | internal/scheduler/catchup.go:70-79 | Of the fires a `run_latest` tick found, up to eight, exactly the last is enqueued, by this tick or any later serialized one; on eight the tick resumes from the eighth |
| `CatchUpTheorems.SkipMarks` | internal/scheduler/catchup.go:55-62 | A `skip` tick enqueues nothing and marks the first fire ahead when it found one to seven due, the eighth when it found eight; with none due it leaves the mark |
| `CatchUpTheorems.SkipForGood` | internal/scheduler/catchup.go:55-62 | None of the fires a `skip` tick passed over is enqueued by it or by any later serialized tick |
| `CatchUpTheorems.SkipTicks` | internal/scheduler/scheduler.go:46-65 | The code, tick after tick on a job that skips, other nodes acting before every call: no fire is ever enqueued, armed or not, whether the store accepts the writes or not |
| `CatchUpTheorems.PassedOverForGood` | internal/scheduler/catchup.go:54-79 | No fire at or before the watermark, passed over or marked, is enqueued by any later serialized tick |
| `CatchUpTheorems.ArmedSlotNeverFires` | internal/scheduler/catchup.go:22-36 | The fire a job is armed with is never enqueued |
| `CatchUpTheorems.UnsetIsArmed` | internal/scheduler/catchup.go:22-36 | A job with no watermark, or one that reads as the zero time, has nothing enqueued by a tick and is marked with the first fire ahead, unless there is none or the store refuses |
| `CatchUpTheorems.StaleEnqueue` | internal/queue/queue.go:68-74 | A leader with an old watermark enqueues a fire a second time, and takes the watermark back, if and only if its ticket is no longer pending |
| `Election.InvRun` | internal/cluster/election.go:13-100 | Every interleaving of campaigns, losses of answers, lease ends and re-sessions keeps the leader key and every node's view of it consistent |
| `Election.LeaderExclusion` | internal/cluster/election.go:23-45 | A node that says it leads and whose lease is alive holds the leader key under that lease, so there is at most one |
| `Election.TwoNodesLeadAtOnce` | internal/cluster/election.go:31-42 | A concrete run in which two nodes say they lead, one with an ended lease |
| `Election.LeaderHoldsIff` | internal/cluster/election.go:23-45 | In every reachable state a node that says it leads has a live lease if and only if it holds the leader key under it |
| `Election.SecondLeaderIff` | internal/cluster/election.go:14-45 | In every reachable state, another node that bids beside a leader leads too if and only if the leader key is gone; then the first one's lease is over, and it still says it leads |
| `Election.AnyLeaderMayBeDoubled` | internal/cluster/election.go:31-48 | From every reachable state with a live leader, the end of its lease and one bid make two nodes lead at once |
| `Election.NoLostWakeUp` | internal/cluster/election.go:67-100 | A node waiting in `follow` sees the leader key in the store or has its deletion still to be delivered |
| `Election.NobodySleepsLeaderless` | internal/cluster/election.go:46-48 | A leaderless cluster with a node asleep (session alive, nothing undelivered) is unreachable |
| `Election.FollowerKnowsLeader` | internal/cluster/election.go:76-98 | A follower whose watch has nothing more to tell names the true holder of the leader key |
| `Election.HolderGoneWakesFollowers` | internal/cluster/election.go:86-96 | When the holder's lease ends, delivering what the watch then has brings any follower back to the top of its loop |
| `ElectionCode.Node.Campaign` | internal/cluster/election.go:52-65 | Winning means holding the key under the node's lease as long as it lives; losing means someone has the key; an error tells nothing |
| `ElectionCode.Node.HandleBatch` | internal/cluster/election.go:89-96 | A watch response wakes the node exactly at its first deletion and is otherwise handled in order |
| `ElectionCode.Node.Watching` | internal/cluster/election.go:77-99 | The wait ends with the session, the watch or a deletion; at rest the key is there and the node knows its holder |
| `ElectionCode.Node.Lead` | internal/cluster/election.go:31-45 | A leader waits for the end of its session and then neither leads nor names anyone; undisturbed, it rests as long as its session lasts, and otherwise leaves no key of its own |
| `ElectionCode.Node.Round` | internal/cluster/election.go:14-49 | One pass of the loop restarts clean or comes to rest; undisturbed and at rest as a leader, it leads under a live lease |
| `ElectionCode.Node.RunToRest` | internal/cluster/election.go:13-50 | Whatever happened before, once left alone the node comes to rest beside a leader it knows, itself or the holder |
| `ElectionCode.Node.DropSession` | internal/cluster/session.go:248-255 | Dropping leaves no session whether or not the revocation gets through; if it does, the lease is over and the leader key, if it was under it, is gone, and left alone nothing else is; if it does not, the store is as it was |
| `CronMask.SetBit` | internal/cron/parser.go:147 | Or-ing a shifted one into a 64-bit word adds exactly that number to the set it stands for |
| `CronParser.ParseItem` | internal/cron/parser.go:101-141 | An item is accepted exactly when the grammar gives it a meaning, and then with that meaning |
| `CronParser.ParseRange` | internal/cron/parser.go:116-141 | A range is accepted exactly when its ends read as values in bounds and in order; one value with a step runs to the maximum |
| `CronParser.MarkItem` | internal/cron/parser.go:142-148 | The loop on 64-bit integers ends, and adds to the word exactly the bits of the values it goes through, wrap-around included |
| `CronParser.ParseField` | internal/cron/parser.go:98-154 | A field is accepted exactly when every comma item means something; the word is the union of what the items mark; the final emptiness check never fires |
| `CronMeaning.FaithfulIffSound` | internal/cron/parser.go:142-148 | The bits an item marks are the bits it means if and only if its step does not wrap onto another bit |
| `CronMeaning.FieldIsUnion` | internal/cron/parser.go:98-154 | With sound steps the word of a field is exactly the union of the stepped ranges of its items, 7 folded to 0 for weekdays |
| `CronMeaning.BareDenotes` | internal/cron/parser.go:116-141 | A part that is one value, without a step, denotes that value alone, and nothing if it is out of bounds |
| `CronMeaning.FieldWithinBounds` | internal/cron/parser.go:98-154 | The word of an accepted field is never empty; it stays within the field's bounds if and only if for each item the start modulo 2^64 - 2 step is not below the minimum |
| `CronMeaning.InsideIff` | internal/cron/parser.go:142-148 | The same for one item: the wraps of the loop carry its start below the minimum, or no bit of it leaves the bounds |
| `CronMeaning.HugeStepMarksDayZero` | internal/cron/parser.go:142 | Day 30 with a step of 2^63 - 1 is accepted and marks the day 0 |
| `CronMeaning.OneReading` | internal/cron/parser.go:98-141 | No text has two readings |
| `CronMeaning.RoundTrip` | internal/cron/parser.go:98-141 | Every list of items that fit a field can be written as text and is read back as it was |
| `CronMeaning.HugeStepMarksOddMinutes` | internal/cron/parser.go:142 | Minute 59 with a step of 2^63 - 1 is accepted and fires in every odd minute |
| `CronExpression.Parse` | internal/cron/parser.go:44-96 | An accepted expression gives a schedule it stands for, field by field; a rejected one stands for none (what the fields and macros stand for is in the rows of `CronReading`) |
| `CronExpression.Validate` | internal/cron/parser.go:39-42 | Validation accepts exactly the expressions that stand for some schedule |
| `CronExpression.DailyWithin24Hours` | internal/cron/parser.go:44-96 | Any accepted expression with `*` for day of month, month and day of week has its next fire within 24 hours of every instant, in any zone a whole number of hours from UTC |
| `CronExpression.SteppedStarRestrictsNothing` | internal/cron/parser.go:87-94 | With `*/2` in the day of month and `*` for the weekday, the second is not among the days and yet every day matches |
| `CronExpression.VixieIff` | internal/cron/schedule.go:48-59 | The days of an accepted expression are those of Vixie's rule if and only if each day field that starts with a star lists every day |
| `CronExpression.ExpressionRoundTrip` | internal/cron/parser.go:44-96 | Any items that fit their five or six fields can be written as one expression, which stands for exactly their words and no other schedule |
| `CronReading.FiveMean` | internal/cron/parser.go:78-95 | Five fields, each any number or a star: they stand for the schedules with exactly those bits, each in its own field, 7 being Sunday too |
| `CronReading.SixMean` | internal/cron/parser.go:70-77 | Six such fields: the seconds come first |
| `CronReading.AcceptedIffInBounds` | internal/cron/parser.go:9-16 | Five such fields are accepted if and only if each number lies within its field: 0-59, 0-23, 1-31, 1-12, 0-7 |
| `CronReading.ClockFires` | internal/cron/schedule.go:35-60 | When they fire, in arithmetic on local time: at the whole minutes whose hour, minute, month and day are the numbers given; of a day of the month and a weekday, either will do |
| `CronReading.Firsts` | internal/cron/parser.go:50-53 | `@yearly` and `@annually` are accepted and mean minute 0, hour 0, day 1, month 1; `@monthly` the same of every month |
| `CronReading.Regulars` | internal/cron/parser.go:54-57 | `@daily` and `@midnight` are accepted and mean minute 0, hour 0 of every day; `@weekly` the same of weekday 0 |
| `CronReading.Hourly` | internal/cron/parser.go:58-59 | `@hourly` is accepted and means minute 0 of every hour |
| `CronReading.OtherMacros` | internal/cron/parser.go:61-63 | No other word that starts with `@` is accepted |
| `CronReading.FiresOnTheNamedDay` | internal/cron/parser.go:35-37 | With a star for the day of month and the name of a day for the weekday, every fire is on that day: for `mon` on days 4, 11, 18 and so on of 1970 |
| `CronReading.FiresInTheNamedMonth` | internal/cron/parser.go:30-33 | With the name of a month, every fire is in that month |
| `CronReading.CaseIsNothing` | internal/cron/parser.go:45 | Two expressions that differ in capitals only stand for the same |
| `CronReading.SpaceAroundIsNothing` | internal/cron/parser.go:45 | White space of any kind around an expression does not matter |
| `CronReading.BlankParts` | internal/cron/parser.go:64 | White space of any kind and length between fields parts them |
| `CronReading.OneWord` | internal/cron/parser.go:64 | Nothing but white space parts fields |
| `CronReading.DashField` | internal/cron/parser.go:116-137 | Two values with a dash between stand for exactly the values from the one to the other, and are refused if out of order or out of bounds |
| `CronReading.StarStep` | internal/cron/parser.go:106-115 | A star with a step n stands for every n-th value from the least one on |
| `CronReading.NumberStep` | internal/cron/parser.go:138-141 | One number with a step n stands for every n-th value from that number to the greatest |
| `CronReading.CommaField` | internal/cron/parser.go:98-103 | A list stands for the union of its parts, and is refused if one of them, say an empty one, is |
| `Text.AtoiSigned` | internal/cron/parser.go:165 | A number may have either sign and must fit 64 bits |
| `Text.AtoiOfZeros` | internal/cron/parser.go:165 | Leading zeros do not matter |
| `Text.AtoiRefuses` | internal/cron/parser.go:165 | The empty text, a sign by itself and a text with any other character are no numbers |
| `CronExpression.NextAfter` | internal/cron/schedule.go:62-80 | The answer is the search for a schedule the expression stands for, in the named zone; no answer means no such schedule, no such zone, or no fire in time |
| `CronExpression.SearchFinds` | internal/scheduler/catchup.go:41-52 | As a function of the watermark the search meets what catching up requires of it: the least fire after each instant |
| `CronCatchUp.TicksOfSchedule` | internal/scheduler/catchup.go:38-69 | With the search for its schedule plugged in, tick after tick on a `run_all` job enqueues exactly the instants its schedule matches between the two watermarks, each once, in order |
| `CronCatchUp.DailyCatchUp` | internal/scheduler/catchup.go:38-69 | From the text to the queue: for an accepted daily expression, n ticks at `now` by a lasting leader have enqueued the first 8n matching instants due, or all of them |
| `CronSchedule.Next` | internal/cron/schedule.go:8-33 | The loop ends and answers as the search does: a matching aligned instant strictly after `from` and before the limit, or none (`CronSchedule.FireIff` says which instants match) |
| `CronSchedule.FireIff` | internal/cron/schedule.go:35-60 | What a fire is, by the local date and time written out in days, hours, minutes and seconds, with day 3 of 1970 a Sunday: every field that counts has the bit of that moment, the two day fields as their stars say |
| `CronSchedule.FiresOnItsWeekdays` | internal/cron/schedule.go:48-54 | A schedule for days of the week fires on those days and no others, for every weekday, the week counted from day 3 of 1970 |
| `CronSchedule.NextIsLeast` | internal/cron/schedule.go:8-33 | The jumping search finds the least matching instant strictly after `from` and before the limit, and fails exactly when there is none: for minute schedules in any zone, for second schedules in steady ones |
| `CronSchedule.SearchExactIffSteady` | internal/cron/schedule.go:18-27 | The jumps lose nothing, for all schedules with seconds, if and only if local hour and minute are constant within each UTC hour and minute |
| `CronSchedule.WholeHoursAreSteady` | internal/cron/schedule.go:19-21 | Offsets of whole hours that change only on the UTC hour are steady |
| `CronSchedule.SixOClockInIndia` | internal/cron/schedule.go:19-21 | At five and a half hours ahead, a job for 06:00:00 is due daily but found only by a search that starts in the second before |
| `Jobs.IdsAreConsecutive` | internal/jobs/jobs.go:39-69 | Under any number of concurrent creates, updates and deletes the ids handed out are 1, 2, 3, ... and the counter is how many there were |
| `Jobs.IdsAreNeverReused` | internal/jobs/jobs.go:51-67 | A successful create takes an id under which no job was ever written, and touches no other job |
| `Jobs.DeletedStaysGone` | internal/jobs/jobs.go:170-180 | A deleted job stays gone in every run without a late write of an update or toggle of it |
| `Jobs.GoneForGoodIff` | internal/jobs/jobs.go:132-168 | A deleted job is missing in every state of a run if and only if nobody had read it before or the run writes no update or toggle of it |
| `Jobs.DeletedJobComesBack` | internal/jobs/jobs.go:132-168 | A concrete run in which such a write brings a deleted job back |
| `Jobs.Validate` | internal/jobs/jobs.go:72-99 | Acceptance is exactly the stated bounds, a parsable expression and a known zone |
| `Jobs.BoundsOfAJob` | internal/jobs/jobs.go:92-97 | All else being valid, a timeout is accepted if and only if it is 0 to 86400 seconds, retries if and only if 0 to 10 |
| `Jobs.NameOfAJob` | internal/jobs/jobs.go:73-78 | All else being valid, a name or command is accepted if and only if it is not all white space |
| `Jobs.PolicyOfAJob` | internal/jobs/jobs.go:82-91 | All else being valid, the policy may be `run_latest`, `run_all`, `skip` or empty, and the zone any known one or empty, and nothing else |
| `Jobs.AcceptedJobsBackOffExactly` | internal/jobs/jobs.go:95-97 | For every accepted job the backoff of every attempt it may requeue is exact |
| `Jobs.Repo.TryOnce` | internal/jobs/jobs.go:40-67 | One round of the loop stores the job under the next id, or was overtaken by another create |
| `Jobs.Repo.Create` | internal/jobs/jobs.go:31-70 | Beside what the others do a create makes up to eight tries at a number, each a read of the counter and a write, and nothing else; a valid job gets the newest id; giving up means that at least eight other creates got through; an invalid job changes nothing; left alone, the first try gets the next id and no other job or watermark is touched |
| `Jobs.Repo.Update` | internal/jobs/jobs.go:132-151 | An accepted update of a job that is there when it is read is one read and one write of the job given under that id; a missing or invalid one writes nothing; left alone, no other job or watermark is touched |
| `Jobs.Repo.SetEnabled` | internal/jobs/jobs.go:153-168 | The toggle reads the job after the others' turn and, after their next, writes back the whole of it as it was read with the flag as asked, overwriting anything in between; a missing job is not written; left alone, nothing else is touched |
| `Jobs.Repo.Delete` | internal/jobs/jobs.go:170-180 | One transaction on what the other callers left takes the job and its watermark and leaves every other key |
| `History.Mirror.Put` | internal/history/mirror.go:51-60 | A decodable value gets a row unless there is one; an undecodable one changes nothing |
| `History.Mirror.Run` | internal/history/mirror.go:25-49 | After any number of snapshots and watches the rows are those of everything shown, first value first |
| `History.RowsAre` | internal/store/store.go:69-81 | A key has a row exactly when it had one or was shown decodably, holding the first such value |
| `History.MirrorAgrees` | internal/history/mirror.go:25-43 | After a stretch from revision R to r, every decodable result live at R or put in (R, r] has a row, with the first value shown or the row it had |
| `History.NewRowIff` | internal/history/mirror.go:25-60 | A key without a row gets one in a stretch from revision R to r if and only if a decodable value of it was live at R or put in (R, r] |
| `History.NewRowHolds` | internal/history/mirror.go:32-48 | A new row holds the value live at the snapshot, if that decodes, and otherwise the first decodable one put while watched |
| `History.LostIff` | internal/history/mirror.go:25-49 | Over any number of connections a result stays without a row if and only if at none of them it was live at the snapshot or put while watched |
| `History.RowsNeverChange` | internal/history/mirror.go:32-48 | No later connection, event or collection changes a row |
| `History.NothingUncollectedIsMissed` | internal/history/mirror.go:27-43 | A result not collected before revision r has a row by then, however often the watch was lost before |
| `History.CollectedUnseenIsLost` | internal/history/mirror.go:44-48 | A result put and collected between two stretches never gets a row |
| `Worker.SlotsBounded` | internal/worker/worker.go:43-74 | With c callers of `tryClaim`, in every interleaving the slots are exactly the runs in progress or about to start, although no decrement looks, and at most `maxConc + c - 1` |
| `Worker.OneCallerKeepsTheLimit` | internal/worker/worker.go:32-41 | With the polling loop as the only caller, slots and claims under way together stay within `maxConc`, and the slots never fall below none |
| `Worker.BoundIsReached` | internal/worker/worker.go:44-62 | With several callers the larger bound is really reached: the check and the increment are not one section |
| `Worker.Slots.TryClaim` | internal/worker/worker.go:43-74 | After each call the slots are the runs in progress, within the limit, whatever runs end meanwhile; a run is started if and only if there was a ticket to claim and the call found fewer runs in progress than the limit |

## Left out

* HTTP handlers, metrics, dashboard, Docker control and configuration: plumbing.
* Shell execution: a run is a nondeterministic success, failure or timeout.
* JSON and RPC errors: values are data, and a call commits or the node stops there. Exceptions are modelled where a protocol turns on them: the lost answer of a campaign, a put under a dead lease, refused scheduler writes, failing watches, undecodable results.
* In `claim`, a transaction error is answered through a nil response (internal/queue/claim.go:72-73); the model returns the error.
* The key order of scans is an arbitrary total order given as an injective rank.
* QueueAccounting.RetryBounds: speaks of tickets enqueued with no attempt made, as the scheduler and the manual trigger make them; the random suffix of manual stamps is taken to be new where `Watermarks` says so.
* The claim session's own loop (internal/cluster/session.go:157-180): each read of the claim lease is an arbitrary lease, live, dead or none; exclusion assumes that both reads of one claim agree.
* Exact catch-up and once-only enqueue of a job assume that no other leader's writes on that job and no deletion of that job fall between a leader's calls; what happens otherwise is in `CatchUpTheorems.StaleEnqueue`.
* CatchUpTheorems.Ticks: the store accepts the leader's writes; what refused ones leave out is exactly `CatchUpTheorems.GapFreeIff`.
* Collection of old results deletes any result at any time in the model; its age rule (internal/queue/gc.go:13-54) is left out, and so is the manual trigger beyond the enqueue it makes.
* Closing a node while its loops run, and the emitted leader events.
* Retry pauses, and liveness that needs a fair network: only safety, counting bounds and what a node does once left alone.
* The four-year limit of the search is an arbitrary instant, and month and day of a date are arbitrary functions within their ranges; a zone's offsets are an arbitrary function of time.
* Characters beyond ASCII in cron expressions, and the wording of error messages.
* Job ids and attempts are unbounded integers: 2^63 creates are out of reach.
* Failing inserts of the mirror, and SQLite itself: rows are a map with insert-or-ignore.
* Timestamps, descriptions and output texts carried in jobs and results.
* QueueCode.Queue.FinishSuccess: takes the name of the finished run as a parameter, because the model keeps the runs in progress in its state.
* ElectionCode.Node.Campaign: says nothing of the case of an error beyond dropping the session, as the code knows no more either.
