# Ofelia, verified

Ofelia is a job scheduler for Docker. This project models the parts of it whose
guarantees span whole runs (state machines, an event loop, a re-entrant chain,
caches and a few algorithms) and proves those guarantees in Dafny 4.11.
`dafny verify dfyconfig.toml` checks everything.

There is one module per component, in a file of the same name.

| module | models | main results |
|---|---|---|
| `Reconcile` | INI file and container labels rewriting one job map | every run of passes settles, exactly when on what a fresh start builds, then falls silent |
| `ExecutionChain` | the re-entrant middleware chain, overlap, webhooks, retry | exact number of times each thing happens in any chain |
| `FakeClock` | the discrete-event clock used in tests | the log of firings is the one the schedules determine; termination |
| `CircuitBreaker`, `TokenBucket` | the resilience primitives | four guarantees over every interleaving; admission iff no window is overdrawn |
| `Semaphore`, `Registry` | the scheduler's resizable limit and its job registry | slots are running jobs; the name index is exact in every run |
| `FallbackPolling`, `GracefulShutdown` | two concurrent protocols | one poller at most, and exactly when polling does not resume or not stop; ordered shutdown |
| `RequestLimiter`, `NotificationDedup`, `PresetCache` | time-window tables and the two-tier cache | decisions and hits equal a reference without a table; cleanups never matter |
| `EditDistance`, `LabelResolution`, `JsonEscape`, `GithubShorthand`, `EnvMerge` | algorithms | least edit cost and a metric; order independence; round trips; a fast form equal to a simple one |

Code that updates state is a class or a loop here too. A class method is proved
against a specification function on values (`Before`, `Removed`, `Got`, ...), and
the lemmas about whole runs are about those functions. What such a function
means is stated apart from it, in terms of the inputs, the history or the log. Concurrency is a step
function over explicit states; a run is any sequence of steps, and a step that is
not enabled changes nothing. Time is a parameter: an `int` of nanoseconds, or a
`real` in the token bucket. What comes from libraries or from outside (hashes,
lower-casing, whether go-cron accepts a schedule, how many other executions are in
flight, the clock) is a parameter too.

Where the code and its own words disagree, the model follows the code:

- middlewares/webhook.go:496-498 says that a middleware after a webhook composite
  runs once per inner webhook. The cursor of the chain is spent after the first
  `Next`, so it runs once (`RunningTraceCount`).
- cli/config_validate.go:246 speaks of fewer than 3 edits and less than 40 percent;
  the code allows 3 edits and exactly 40 percent, and the starting value of the
  search also excludes anything farther than the key is long (`DocumentedRuleIff`,
  `ShortKeysSuggestLess`).
- middlewares/preset_cache.go serves an entry for up to two ttl, because a process
  that finds it on disk starts a new ttl in memory (`PromotionRestartsTtl`).
- core/resilience.go counts half-open calls without the one that opened the
  episode, so an episode admits one more than `halfOpenMaxCalls` (`EpisodeBoundIsReached`).
- core/shutdown.go launches nothing after a timeout, but a goroutine it launched
  before may still begin its hook afterwards (`LateStartIff`).

## Model

| member | source | states |
|---|---|---|
| `Reconcile.Config.ReplaceIfChanged` | cli/config.go:815-843 | A job is replaced exactly when the new one is valid and both hashes exist and differ; then the scheduler drops the old and is given the new, and no other name is touched |
| `Reconcile.Config.AddNewJob` | cli/config.go:852-869 | A valid job is registered and stored under its source, an invalid one changes nothing, and no other name is touched |
| `Reconcile.Config.SyncJobMap` | cli/config.go:779-813 | For every name at once, whatever order the two map loops take: the entry, the scheduler's job and the scheduler calls after the pass are those of the name alone |
| `Reconcile.MergeJobs` | cli/config.go:492-500 | For every name, a source entry replaces the destination's unless that one came from the INI file |
| `Reconcile.Config.RegisterAllJobs` | cli/config.go:502-562 | Every merged job is prepared, registered once and kept with its source; other names stay empty |
| `Reconcile.BootedIs` | cli/config.go:492-562 | What a fresh start leaves under a name: the prepared job of the INI file, else of the labels, in the map with its source, with the scheduler if it takes the schedule, and after one call |
| `Reconcile.Config.Boot` | cli/config.go:492-562 | The map holds the names of both sources, each with the prepared INI job or else the prepared label job and its source; the scheduler holds exactly the schedulable ones of these jobs, after one call of `AddJob` for each name |
| `Reconcile.Config.ReloadBoth` | cli/config.go:779-869 | After an INI pass and a label pass over any map and scheduler in agreement, each name is, up to hash, that of a fresh start if and only if the job it would take is valid or was already there, and the scheduler holds the map's job if and only if that is not a label job left orphaned |
| `Reconcile.PassKeepsAgreement` | cli/config.go:779-869 | A pass keeps map and scheduler in agreement if and only if it is not an INI pass that brings an invalid job under the name of a scheduled label job |
| `Reconcile.LabelPassesSpareIni` | cli/config.go:779-813 | No sequence of label passes, whatever they parse, changes an INI entry, its registration or its call history |
| `Reconcile.PassCalls` | cli/config.go:779-869 | A pass of valid jobs calls the scheduler for exactly what it changes: a new job is added, one that is gone removed, one replaced or taken over removed and added |
| `Reconcile.UnsetIsOwned` | cli/config.go:780-797 | An entry without a source belongs to any pass, and a pass without a source owns every entry: dropped if gone, replaced and claimed if changed, else left as it is |
| `Reconcile.UnsetPassAdds` | cli/config.go:852-869 | A pass without a source adds a new job under the source its parse gave it |
| `Reconcile.Converges` | cli/config.go:779-869 | The same for one name: a fresh start takes a job unvalidated (502-562), a pass does not, so the two passes reach what it builds if and only if that job is valid or already in the map under its source with that hash |
| `Reconcile.InvalidLabelIsLost` | cli/config.go:852-869 | An invalid label job that a fresh start registers and passes from an empty map never do |
| `Reconcile.ThenQuiet` | cli/config.go:779-869 | Where the map is that of a fresh start, valid jobs or not, neither pass changes anything or calls the scheduler |
| `Reconcile.LabelRepeatIsQuiet` | cli/config.go:779-869 | From any state and for any parse, a label pass repeated with an equal parse changes nothing and calls the scheduler no more |
| `Reconcile.IniRepeatIsQuietIff` | cli/config.go:779-869 | From any state, an INI pass repeated with an equal parse is quiet if and only if it does not bring an invalid job under the name of a label entry; there each repeat calls the scheduler again |
| `Reconcile.EveryRunConverges` | cli/config.go:779-869 | In every sequence of passes that has a label pass somewhere after an INI pass, the entry is fixed from that label pass on, and is the one of a fresh start if and only if the job that would take is valid or was there at the beginning; with a valid INI job nothing moves at all and map and scheduler agree |
| `ExecutionChain.Context.Start` | core/common.go:106-109 | Marks the execution running and counts it |
| `ExecutionChain.Context.Stop` | core/common.go:156-163 | Only the first stop has an effect: it gives the counter back and fixes the verdict, skipped exactly if unwrapping the error some number of times gives the skip error, failed with the error exactly for any other; later ones change nothing |
| `ExecutionChain.Context.Next` | core/common.go:111-117 | From any cursor position: ends stopped with the cursor at the end, the verdict of the first stop, and exactly the events of the chain's trace, which is defined without cursor or flags |
| `ExecutionChain.Context.DoNext` | core/common.go:119-154 | Skips what does not continue on stop, enters one middleware, or runs the job with the outcome still open |
| `ExecutionChain.Context.RunOverlap` | middlewares/overlap.go:35-40 | With another execution in flight the first stop is a skip and the rest runs as stopped, else the chain goes on |
| `ExecutionChain.Context.RunReporter` | middlewares/webhook.go:133-154 | Reports once, after the rest of the chain, seeing the final verdict |
| `ExecutionChain.Context.RunComposite` | middlewares/webhook.go:505-515 | Every inner webhook reports once, in order, with the final verdict, and runs nothing of the chain again |
| `ExecutionChain.Context.ExecuteWithRetry` | core/retry.go:74-153 | Whatever `MaxRetries` is and whichever wait is cut short, the events are those of one call of `Next`, and a nil answer gives a nil result |
| `ExecutionChain.Context.RunWithCtx` | core/scheduler.go:878-952 | The running counter returns to its value; nothing happens when the scheduler is stopped; otherwise one trace, skipped if and only if an overlap was found or the job's error wraps the skip error, failed with the wrapped job error if and only if the job gave any other error and no overlap was found, and failure is what is reported in exactly that case |
| `ExecutionChain.RunningTraceCount` | core/common.go:106-163 | How often any event occurs in the run of any chain: the job once unless an overlap is found (then never), each position at most once, each that continues on stop exactly once, one stop, each inner webhook one report |
| `ExecutionChain.StoppedTraceCount` | core/common.go:119-145 | The same for a chain entered after the stop |
| `ExecutionChain.ReportsFollowStop` | middlewares/webhook.go:133-154 | No report comes before the stop that fixed the verdict |
| `ExecutionChain.FirstStopIs` | core/common.go:111-163 | The first stop is the skip error if some overlap middleware finds another execution, else it carries the job's own result, which may itself be a skip |
| `ExecutionChain.SkippedIff` | core/common.go:236-254 | The recursive test agrees with the chain of unwrapped errors |
| `ExecutionChain.VerdictIs` | core/common.go:236-254 | The verdict of a whole chain in terms of the overlaps and the job's result alone |
| `ExecutionChain.TraceInOrder` | core/common.go:106-163 | The order of everything in the run of any chain: positions are entered outside in, the job runs after every entry and before the stop, reports come inside out and slot by slot, and nothing is entered once they have begun |
| `FakeClock.TicksClosedForm` | core/clock.go:244-255 | A ticker's firings are an arithmetic progression up to the target, and its next point is the first one after it |
| `FakeClock.Clock.NewTicker` | core/clock.go:125-137 | The new ticker is due one duration from now; nothing is overdue exactly if the duration is not negative |
| `FakeClock.Clock.NewTimer` | core/clock.go:139-150 | The new timer is due after its delay; the same about overdue |
| `FakeClock.Clock.After` | core/clock.go:152-167 | A non-positive delay is delivered at once and never queued, a positive one waits for its deadline |
| `FakeClock.Clock.StopTicker` | core/clock.go:313-317 | Stops that ticker and nothing else |
| `FakeClock.Clock.StopTimer` | core/clock.go:331-337 | Stops that timer and says whether it was still to fire |
| `FakeClock.Clock.ResetTimer` | core/clock.go:339-347 | Makes that timer active again from now and says whether it was still to fire |
| `FakeClock.Clock.FindEarliestEvent` | core/clock.go:211-242 | None exactly when nothing is pending; otherwise something is pending at that time and nothing before it |
| `FakeClock.Clock.FireTickers` | core/clock.go:244-255 | Every due ticker, and no other, moves one duration on, in order of creation, and puts the time into its channel if that is empty |
| `FakeClock.Clock.FireTimers` | core/clock.go:272-283 | Every due timer, and no other, fires, in order of creation, and puts the time into its channel if that is empty |
| `FakeClock.Clock.FireWaiters` | core/clock.go:257-270 | Every due waiter gets the time, in order, and exactly the others remain |
| `FakeClock.Clock.AdvanceTo` | core/clock.go:190-209 | Whenever the loop ends at all: it ends at the target; every source fires exactly at the times of its schedule and the log is chronological; told by that log, an empty channel holds the first value its ticker or timer sent and a full one what it held, tickers stand at the next point of their progression, timers and waiters that were due are done; nothing is left due, and the clock never steps back if and only if nothing was overdue and the target is not in the past |
| `FakeClock.Clock.Advance` | core/clock.go:176-182 | The same for a duration, and afterwards nothing is overdue |
| `FakeClock.SettledTold` | core/clock.go:244-283 | What a settled clock looks like in terms of the log of firings alone |
| `FakeClock.LogIsDetermined` | core/clock.go:190-209 | A chronological log is fixed by the firing times of each source, so the guarantees of `AdvanceTo` leave one possible log |
| `FakeClock.AdvanceInPieces` | core/clock.go:176-209 | Advancing to a time and then to a later one settles everything, and fires every source, as advancing there at once |
| `FakeClock.TurnShrinks` | core/clock.go:190-209 | Each turn of the loop lowers the pending timers, waiters and remaining ticks |
| `FakeClock.LoopEndsIff` | core/clock.go:190-209 | The loop ends if and only if every running ticker that is due by the target has a positive duration |
| `FakeClock.LoopNeverEnds` | core/clock.go:190-209 | Otherwise it goes on for any number of turns |
| `FakeClock.StuckTicker` | core/clock.go:244-255 | A ticker due by the target without a positive duration is due again after every turn of every run |
| `FakeClock.PathsAgree` | core/clock.go:190-242 | The loop has no choice: of two runs from one state, one continues the other |
| `CircuitBreaker.Breaker.BeforeCall` | core/resilience.go:160-190 | New state and admission in each of the three states |
| `CircuitBreaker.Breaker.AfterCall` | core/resilience.go:193-247 | New state after a success and after a failure |
| `CircuitBreaker.Breaker.TransitionToOpen` | core/resilience.go:249-256 | Opens with all three counters at zero, keeping the time of the last failure |
| `CircuitBreaker.Breaker.Reset` | core/resilient_job.go:214-218 | Closes from any state with all three counters at zero |
| `CircuitBreaker.RunKeepsInv` | core/resilience.go:144-275 | In every interleaving the counters agree with what can be read off the history |
| `CircuitBreaker.PhaseChanges` | core/resilience.go:160-275 | At every happening of every interleaving: the breaker becomes open exactly at a failure completed while half-open or one that brings the closed streak to `maxFailures`, half-open exactly at a call admitted while open, closed exactly at a reset or at the success that brings those of the episode to `halfOpenMaxCalls` |
| `CircuitBreaker.AdmittedIff` | core/resilience.go:160-190 | A call is always admitted while closed, while open if and only if the last failure is longer ago than the timeout, while half-open if and only if the episode has admitted no more than `halfOpenMaxCalls` calls |
| `CircuitBreaker.ClosedMeansFewFailures` | core/resilience.go:227-247 | Closed implies fewer than `maxFailures` failures in a row, in every run, if and only if `maxFailures` is at least 1 |
| `CircuitBreaker.OpenAdmitsOnlyAfterTimeout` | core/resilience.go:169-175 | An open breaker admits a call if and only if the last recorded failure is more than `resetTimeout` ago |
| `CircuitBreaker.EpisodeBound` | core/resilience.go:160-190 | One half-open episode of any run admits at most `halfOpenMaxCalls` plus one calls |
| `CircuitBreaker.EpisodeBoundIsReached` | core/resilience.go:160-190 | Whatever the settings, some run has an episode that does admit that many |
| `CircuitBreaker.CallsBalance` | core/resilience.go:144-247 | Total calls are the rejected, the in-flight, the successful and the failed ones together, and each total is what the history counts |
| `TokenBucket.RateLimiter.RefillNow` | core/resilience.go:340-350 | Tokens grow with the time elapsed, up to the capacity |
| `TokenBucket.RateLimiter.AllowN` | core/resilience.go:325-337 | New state and decision for a request of any size |
| `TokenBucket.TokensAreLeastHeadroom` | core/resilience.go:310-350 | After any trace the tokens are exactly the least headroom of any window, within 0 and the capacity |
| `TokenBucket.AdmittedIffNoWindowOverdrawn` | core/resilience.go:310-350 | A call is admitted if and only if it is no larger than the capacity and no window ending with it would grant more than capacity plus rate times its length |
| `TokenBucket.GrantedAllOrNothing` | core/resilience.go:325-337 | Each call of a trace is granted all it asks for or nothing, by the state the calls before it left |
| `TokenBucket.WindowBound` | core/resilience.go:310-350 | Between any two calls at most capacity plus rate times elapsed time is admitted |
| `TokenBucket.NegativeRequestOverfills` | core/resilience.go:325-337 | Any negative request to a full bucket is admitted and lifts the tokens above the capacity |
| `TokenBucket.WithinBoundsIffNonNegative` | core/resilience.go:310-350 | After every trace a request leaves the tokens within 0 and the capacity, if and only if it is not negative |
| `Semaphore.NeverBlocked` | core/scheduler.go:227-247 | A release finds its own slot in the channel it took it from |
| `Semaphore.RunKeepsInv` | core/scheduler.go:52-91 | In every interleaving of fetch, acquire, release and resize the slots held of each channel are the running jobs that took them, within its capacity |
| `Semaphore.RunningWithinLimits` | core/scheduler.go:66-79 | Running jobs never exceed the sum of the limits installed: the limit without a resize, old plus new across one; and no release blocks |
| `Semaphore.SumOfLimitsIsReached` | core/scheduler.go:66-79 | For every sequence of limits some run installs them and has exactly their sum running |
| `Semaphore.OldPlusNewIsReached` | core/scheduler.go:66-79 | In particular old plus new across one resize, whatever they are |
| `Semaphore.Limiter.SetMaxConcurrentJobs` | core/scheduler.go:254-265 | Installs an empty channel of that many slots, at least one, and keeps the invariant |
| `Semaphore.Limiter.GetChan` | core/scheduler.go:81-85 | The invocation fetches the current channel |
| `Semaphore.Limiter.RunOrSkip` | core/scheduler.go:227-247 | Acquires if and only if fewer jobs than its capacity hold a slot of the fetched channel, else the invocation is skipped |
| `Semaphore.Limiter.Finish` | core/scheduler.go:227-233 | Gives the slot back to the channel it came from |
| `Registry.Scheduler.AddJobWithTags` | core/scheduler.go:298-343 | Refuses an empty schedule, one go-cron refuses, and a taken name, changing nothing; otherwise list, index and go-cron all gain the job under a fresh id |
| `Registry.AddEffect` | core/scheduler.go:298-343 | A job is taken if and only if its schedule is not empty and readable and its name is free; the name then leads to it, with its tags, a fresh id and running, and every other name is as before |
| `Registry.Scheduler.RemoveJob` | core/scheduler.go:345-366 | Drops the first job that is the given one or has its id, and the given one's name everywhere |
| `Registry.RemoveEffect` | core/scheduler.go:345-366 | Removing a registered job leaves nothing of its name, records it and touches no other name |
| `Registry.Scheduler.DropEntry` | core/scheduler.go:385-397 | Drops the last job with an id from list, index and disabled names, and records it |
| `Registry.Scheduler.RemoveJobsByTag` | core/scheduler.go:370-400 | Is the same as removing the jobs of the tagged entries one by one, in the order go-cron lists them; exactly the names without the tag remain, the invariant is kept, and the answer is the number removed |
| `Registry.DroppedIsRemoved` | core/scheduler.go:370-400 | Dropping entries by id after go-cron forgot them all equals proper removals |
| `Registry.Scheduler.ScanByName` | core/scheduler.go:576-583 | The first job of that name, or none if there is none |
| `Registry.Scheduler.LookupJob` | core/scheduler.go:605-613 | The map lookup answers what the linear scan would, and something if and only if a job has the name |
| `Registry.MapLookupIsScan` | core/scheduler.go:605-613 | Under the invariant map lookup and linear scan agree for every name |
| `Registry.Scheduler.DisableJob` | core/scheduler.go:661-680 | Pauses a known job, is idempotent, and fails for an unknown one |
| `Registry.DisableEffect` | core/scheduler.go:661-680 | Succeeds if and only if the name is known; the name is then disabled and its cron entry paused, and no other is touched |
| `Registry.Scheduler.EnableJob` | core/scheduler.go:686-711 | Resumes a disabled job, is idempotent, and fails for an unknown one |
| `Registry.EnableEffect` | core/scheduler.go:686-711 | Succeeds if and only if the name is known; the name is then not disabled and its cron entry not paused, and no other is touched |
| `Registry.Scheduler.ListJobs` | core/scheduler.go:539-573 | The active or the disabled jobs, in order |
| `Registry.ActiveAndDisabledPartition` | core/scheduler.go:539-573 | The two lists partition the jobs |
| `Registry.PickKeepsOrder` | core/scheduler.go:539-573 | Each list is all jobs of its kind in the order of the list of jobs |
| `Registry.RemoveKeepsInvIff` | core/scheduler.go:345-366 | A removal keeps the registry consistent if and only if the job is registered or its name is free |
| `Registry.RunKeepsInv` | core/scheduler.go:298-400 | In every run of add, remove, remove by tag, disable and enable: names distinct, index exact, disabled names known, go-cron in step, and the record of removed jobs only grows |
| `Registry.RemoveKeepsIndexIff` | core/scheduler.go:345-366 | Removing a listed job keeps the index exact if and only if no earlier job carries the same id |
| `Registry.Scheduler.UpdateJob` | core/scheduler.go:621-650 | Replaces the job of an active name in list and index, or refuses and changes nothing |
| `Registry.UpdateEffect` | core/scheduler.go:621-650 | Succeeds if and only if the name is known and active and the schedule readable; the new job then stands where the old one did, in list and index, without an id of its own |
| `Registry.UpdateKeepsIndexIff` | core/scheduler.go:621-650 | An update keeps the index exact if and only if it is refused or the new job has the old name |
| `Registry.RunKeepsIndexIff` | core/scheduler.go:298-711 | Over any run of add, remove, remove by tag, disable, enable and update, the index is exact after every step if and only if every step met its guard: an added name is free, a removal takes out a job of its own name or none of a free name, an update keeps the name |
| `Registry.UpdatedJobOutlivesTag` | core/scheduler.go:370-400 | An updated job carries no id, so a removal by its tag takes it out of go-cron and leaves it in list and index |
| `Registry.UpdatesBreakIndex` | core/scheduler.go:621-650 | Two updates and a removal leave the wrong job in the list and the wrong name in the index |
| `FallbackPolling.OnePollerAtMost` | cli/docker_config_handler.go:263-293 | In every interleaving at most one poller is live, and flag and cancel function are set exactly while it is, the function being its own |
| `FallbackPolling.NoIntervalNoPoller` | cli/docker_config_handler.go:365-386 | Without a configured interval no run ever has a pending or live poller |
| `FallbackPolling.FailedIff` | cli/docker_config_handler.go:365-398 | The stream counts as failed if and only if there was an error that no event has followed |
| `FallbackPolling.MayStrandIff` | cli/docker_config_handler.go:263-398 | During an outage some continuation leaves the stream without poller and none on its way, if and only if there is neither a poller nobody cancelled nor a spawned one that will find the place free |
| `FallbackPolling.SafeUnlessRace` | cli/docker_config_handler.go:365-398 | The one step that makes this possible is an error handled while a cancelled poller has not stepped down |
| `FallbackPolling.RaceFreeRunsAreSafe` | cli/docker_config_handler.go:263-398 | In every run without that race a failed stream is polled or about to be, and no continuation of the outage strands it |
| `FallbackPolling.StrandedStays` | cli/docker_config_handler.go:365-398 | Once stranded, only a stream event ends it |
| `FallbackPolling.RaceStrands` | cli/docker_config_handler.go:365-398 | A run with the race that does end stranded |
| `FallbackPolling.AtRestUnlessOvertaken` | cli/docker_config_handler.go:261-293 | The one step after which a healthy stream may be polled by a poller nobody cancelled is an event that arrives while a spawned poller has not reached the lock |
| `FallbackPolling.PollingStops` | cli/docker_config_handler.go:388-398 | In every run without that step a healthy stream has no poller, except one on its way out |
| `FallbackPolling.LingeringStays` | cli/docker_config_handler.go:365-398 | A poller nobody cancelled goes on until the next event or the shutdown, whatever errors come |
| `FallbackPolling.OvertakingLingers` | cli/docker_config_handler.go:261-293 | A run that leaves such a poller on a healthy stream |
| `FallbackPolling.DockerHandler.HandleEventStreamError` | cli/docker_config_handler.go:365-386 | Only the first error of an outage has an effect; it spawns a poller if one is configured and none is active |
| `FallbackPolling.DockerHandler.ClearEventStreamError` | cli/docker_config_handler.go:389-398 | Clears the failure and cancels the stored poller |
| `FallbackPolling.DockerHandler.StartFallbackPolling` | cli/docker_config_handler.go:263-274 | Becomes the poller if there is none, else leaves |
| `FallbackPolling.DockerHandler.StopFallbackPolling` | cli/docker_config_handler.go:281-289 | A poller whose context is done clears flag and cancel function |
| `FallbackPolling.DockerHandler.CancelAll` | cli/docker_config_handler.go:477-480 | Cancelling the handler's own context ends every poller's |
| `FallbackPolling.WatchEvents` | cli/docker_config_handler.go:400-475 | The wait after the k-th error since the last event is the lesser of 2^(k-1) seconds and five minutes, for every sequence of outcomes |
| `FallbackPolling.WaitsDouble` | cli/docker_config_handler.go:400-456 | The waits start at one second and double up to 300 |
| `FallbackPolling.ErrorsAreSince` | cli/docker_config_handler.go:400-475 | The errors that count are those since the last event; a closed channel neither counts nor resets |
| `GracefulShutdown.ShutdownManager.RegisterHook` | core/shutdown.go:51-64 | The swaps insert the hook behind those of its own or a lower number |
| `GracefulShutdown.RegistrationIsStableSort` | core/shutdown.go:51-64 | After any registrations the hooks are sorted, a permutation of what was registered, and in order of registration within a priority |
| `GracefulShutdown.GroupHooks` | core/shutdown.go:101-111 | Groups hold exactly the hooks of their priority in order, and priorities come out increasing |
| `GracefulShutdown.GroupsAreGrouping` | core/shutdown.go:101-111 | Every hook has one place, and group order is priority order |
| `GracefulShutdown.RunKeepsInv` | core/shutdown.go:83-165 | In every interleaving the launched hooks are those the loop has passed, earlier groups are done, and the error tally is right |
| `GracefulShutdown.ShutdownGuarantees` | core/shutdown.go:83-165 | For any registered hooks and every interleaving: no hook is launched before all of lower number finished, none starts twice, nil means all finished without error, the error that counts failed hooks means all finished and some failed (the source wraps its timeout error there too, so `errors.Is` alone does not tell the two apart) |
| `GracefulShutdown.TimedOutIff` | core/shutdown.go:144-150 | In every run the timeout is the result if and only if it struck while the loop waited for a group |
| `GracefulShutdown.EveryHookCanRun` | core/shutdown.go:83-165 | From wherever a run has got to after the call, unless the timeout struck, some continuation without timeout returns with every hook begun exactly once and finished |
| `GracefulShutdown.NilIff` | core/shutdown.go:83-165 | In a run without timeout a returned result is nil if and only if every hook finished without error |
| `GracefulShutdown.SecondCallIgnored` | core/shutdown.go:84-90 | Only the first call of `Shutdown` does anything |
| `GracefulShutdown.NothingLaunchedAfterReturn` | core/shutdown.go:83-165 | After a return, by timeout or otherwise, nothing idle is ever launched and another call changes nothing |
| `GracefulShutdown.LateStartIff` | core/shutdown.go:119-150 | After any return a hook may still begin if and only if its goroutine was launched and had not begun |
| `GracefulShutdown.LateStartNeedsTimeout` | core/shutdown.go:119-150 | That happens after a timeout only |
| `GracefulShutdown.LateStart` | core/shutdown.go:119-150 | A run in which it happens |
| `RequestLimiter.RateLimiter.Valid` | web/middleware.go:83-88 | The times less than one window old, in order |
| `RequestLimiter.RecentPicks` | web/middleware.go:83-88 | Exactly those: as positions in the list, increasing, and all of them |
| `RequestLimiter.RateLimiter.Request` | web/middleware.go:180-205 | Decision and table for one request; a refusal adds nothing |
| `RequestLimiter.RateLimiter.Cleanup` | web/middleware.go:77-96 | An address stays if and only if it has a recent time, and keeps exactly its recent times |
| `RequestLimiter.DecisionsAreReference` | web/middleware.go:180-205 | With time running forward every decision is the one of a reference that keeps all history, so cleanups anywhere change none |
| `RequestLimiter.AdmittedIff` | web/middleware.go:180-205 | Every request gets one decision, and is let in if and only if fewer than `limit` requests of its address were let in less than one window ago |
| `RequestLimiter.AdmittedPicks` | web/middleware.go:180-205 | The requests of an address that were let in, as positions in the log of decisions |
| `RequestLimiter.WindowBound` | web/middleware.go:180-205 | Any half-open interval of one window holds at most `limit` admitted requests of an address |
| `NotificationDedup.Dedup.ShouldNotify` | middlewares/dedup.go:38-65 | Decision and table for one notification |
| `NotificationDedup.Dedup.Cleanup` | middlewares/dedup.go:85-95 | Exactly the entries within the cooldown remain |
| `NotificationDedup.DecisionsAreReference` | middlewares/dedup.go:38-95 | Every decision is the one of a reference over the whole history, so cleanups anywhere change none |
| `NotificationDedup.NotifiedIff` | middlewares/dedup.go:38-65 | Every execution gets one decision: it is notified if and only if suppression is off, it did not fail, or no notified failure of its key is less than one cooldown old |
| `NotificationDedup.NotificationsAreSpaced` | middlewares/dedup.go:38-65 | Two error notifications of one key that go out are at least one cooldown apart |
| `PresetCache.Cache.Get` | middlewares/preset_cache.go:114-140 | Memory first, then disk with promotion under a new ttl |
| `PresetCache.Cache.GetFromDisk` | middlewares/preset_cache.go:160-200 | Misses on absence, expiry (removing the files) and a foreign URL |
| `PresetCache.Cache.Put` | middlewares/preset_cache.go:143-157 | Both tiers hold the preset with the same expiry |
| `PresetCache.Cache.Invalidate` | middlewares/preset_cache.go:238-251 | Both tiers lose it |
| `PresetCache.Cache.Cleanup` | middlewares/preset_cache.go:280-329 | Exactly the unexpired entries remain in both tiers |
| `PresetCache.Cache.constructor` | middlewares/preset_cache.go:79-105 | A new cache starts with an empty memory over whatever the directory holds |
| `PresetCache.HitsAreLastPuts` | middlewares/preset_cache.go:114-251 | In every run, restarts included, a hit is the last Put since the last invalidation, and whether there is one, and from which tier, is what the history says without the tables |
| `PresetCache.HitIffFreshOrPromoted` | middlewares/preset_cache.go:114-251 | There is a hit if and only if the last Put is at most one ttl old, or some Get since was served from disk less than one ttl ago with no restart since |
| `PresetCache.AgeBound` | middlewares/preset_cache.go:114-251 | No hit is two ttl old, for a positive ttl |
| `PresetCache.PromotionNeedsRestart` | middlewares/preset_cache.go:114-137 | Without a restart a Get is served from disk only at the instant the file expires |
| `PresetCache.PromotionRestartsTtl` | middlewares/preset_cache.go:131-137 | Every age between one and two ttl is reached: a new process reads the file late and serves it for another ttl |
| `PresetCache.CleanupsDoNotMatter` | middlewares/preset_cache.go:280-329 | Removing all cleanups from a run changes no later answer |
| `EditDistance.FillRow` | cli/config_validate.go:280-294 | One row of the matrix from the row above, leaving the other rows alone |
| `EditDistance.LevenshteinDistance` | cli/config_validate.go:262-297 | The last cell is the distance of the two strings |
| `EditDistance.DistanceIsLeastCost` | cli/config_validate.go:262-297 | The distance is the least number of insertions, deletions and substitutions of any script from one string to the other |
| `EditDistance.Symmetric` | cli/config_validate.go:262-297 | It is symmetric |
| `EditDistance.ZeroIffEqual` | cli/config_validate.go:262-297 | It is zero exactly for equal strings |
| `EditDistance.Compose` | cli/config_validate.go:262-297 | Two scripts in a row can be done by one at no more than their joint cost |
| `EditDistance.TriangleInequality` | cli/config_validate.go:262-297 | The triangle inequality |
| `EditDistance.FindClosestMatch` | cli/config_validate.go:233-259 | The first candidate of least distance within the threshold and the key's length, or nothing if there is none |
| `EditDistance.ShortKeysSuggestLess` | cli/config_validate.go:239-255 | Every candidate within the threshold is near enough to be suggested, if and only if the key has three bytes or more |
| `EditDistance.DocumentedRuleIff` | cli/config_validate.go:246-250 | Every suggestion is, as the comment says, fewer than 3 edits or fewer than 40 percent of the key away, if and only if the key has fewer than 3 bytes, or more than 5 and not a multiple of 5 |
| `LabelResolution.SortOrders` | cli/docker-labels.go:247-275 | The sort gives the ordered permutation |
| `LabelResolution.SortOrderIs` | cli/docker-labels.go:247-275 | In sort order every running container comes before every stopped one, the newer first within either, names deciding between equals |
| `LabelResolution.CompareIs` | cli/docker-labels.go:272 | Names compare by the first difference, a proper prefix first |
| `LabelResolution.CollectJobs` | cli/docker-labels.go:305-349 | In whatever order labels are read, a container's jobs hold exactly the parameters its labels give them, exec jobs under their scoped name and only if it runs |
| `LabelResolution.AddContainerName` | cli/docker-labels.go:366-375 | A job without image and container gets the defining container, unless that is a service container |
| `LabelResolution.ContainerJobs` | cli/docker-labels.go:296-352 | The run and exec jobs one container defines |
| `LabelResolution.DefinesIff` | cli/docker-labels.go:305-349 | A container defines an exec job if and only if it runs and has a label for it, under its Compose service or else its name, a dot and the job's name; a run job under the job's name if and only if it has a label for it |
| `LabelResolution.HomedIs` | cli/docker-labels.go:351-375 | A job keeps its parameters, and one without image and container, outside a service container, gets exactly `container` with the defining container's name |
| `LabelResolution.ParamsAre` | cli/docker-labels.go:305-375 | The parameters of a run job are those of the container's labels, and that container besides in exactly that case |
| `LabelResolution.MergeJobMaps` | cli/docker-labels.go:379-393 | For every name the left job, unless it is absent or the right one may replace it |
| `LabelResolution.ResolveLabels` | cli/docker-labels.go:278-363 | Under every name, what merging the containers' offers in sort order leaves |
| `LabelResolution.ExecJobSource` | cli/docker-labels.go:355-358 | An exec job comes whole from the first running definer in sort order |
| `LabelResolution.ExecJobIsNewest` | cli/docker-labels.go:355-358 | That is the newest running container that defines it |
| `LabelResolution.RunJobFromRunning` | cli/docker-labels.go:360-361 | A run job comes whole from the last running definer in sort order |
| `LabelResolution.RunJobFromStopped` | cli/docker-labels.go:360-361 | If no running container defines it, from the first stopped one in sort order |
| `LabelResolution.FirstStoppedIsNewest` | cli/docker-labels.go:247-275 | That one is the newest |
| `LabelResolution.ResolutionIgnoresListing` | cli/docker-labels.go:247-363 | With distinct sort keys the resolved jobs do not depend on the order containers are listed in |
| `JsonEscape.NeedsJsonEscape` | middlewares/preset.go:560-568 | True exactly if some byte needs escaping |
| `JsonEscape.JsonStringEscape` | middlewares/preset.go:524-558 | Fast path and loop give the same |
| `JsonEscape.NothingToEscape` | middlewares/preset.go:524-529 | Escaping text without such a byte changes nothing |
| `JsonEscape.EscapeRoundTrip` | middlewares/preset.go:524-558 | A reader of section 7 of RFC 8259 gets every byte string back and stops at the closing quote, whatever follows |
| `JsonEscape.EscapedIsClean` | middlewares/preset.go:524-558 | The result holds no control byte, every quote follows an odd run of backslashes, and every backslash after an even run begins an escape of section 7 of RFC 8259 |
| `JsonEscape.EscapeIsShortest` | middlewares/preset.go:534-553 | No text a reader takes for a byte is shorter than its escaped form, and hexadecimal digits are in lower case |
| `JsonEscape.EscapeInjective` | middlewares/preset.go:524-558 | Different strings escape differently |
| `JsonEscape.EscapeConcat` | middlewares/preset.go:524-558 | Text may be escaped in pieces |
| `GithubShorthand.FindSubmatch` | middlewares/preset_github.go:89-92 | Scanning from stop to stop finds the groups of the match, or none |
| `GithubShorthand.MatchIsUnique` | middlewares/preset_github.go:28 | The expression matches a string in at most one way, and the search finds a match if and only if there is one |
| `GithubShorthand.ParseGitHubShorthandDetails` | middlewares/preset_github.go:84-110 | The parts of the match, without the path's slash and with main for no version; an error if there is no match |
| `GithubShorthand.FormatGitHubShorthand` | middlewares/preset_github.go:123-143 | The builder writes the printed form |
| `GithubShorthand.FormatRoundTrip` | middlewares/preset_github.go:84-143 | For any parts, parsing what was printed gives them back, empty version becoming main, if and only if org and repo are not empty, the org has no slash, the repo no slash or @, the path no @ and no leading slash, and the version no newline |
| `GithubShorthand.Reparse` | middlewares/preset_github.go:84-143 | What was parsed is printable, and printing and parsing it again gives it back if and only if its path has no leading slash |
| `GithubShorthand.FormatIsShortest` | middlewares/preset_github.go:123-143 | No shorthand for the same parts is shorter than the printed one, so main and an empty path leave nothing |
| `GithubShorthand.LeadingSlashIsLost` | middlewares/preset_github.go:130-135 | A leading slash of the path comes back as one slash fewer |
| `GithubShorthand.SlashInOrgMoves` | middlewares/preset_github.go:123-143 | A slash in the org is printed as it is, so its second half comes back as the repo and the repo as part of the path |
| `EnvMerge.Merger.AddEntry` | core/envfile.go:106-119 | Adding an entry in place keeps index and result those of the entries so far |
| `EnvMerge.Merger.Add` | core/envfile.go:106-120 | The same for a whole source |
| `EnvMerge.MergeEnvironments` | core/envfile.go:98-127 | Each key once, in order of first appearance, with its last assignment; entries without = are dropped |
| `EnvMerge.MergeIsUnique` | core/envfile.go:98-127 | That leaves one possible result |
| `EnvMerge.KeysHaveLast` | core/envfile.go:106-119 | The keys are those with a last assignment, which assigns that key |
| `EnvMerge.AssignsIff` | core/envfile.go:108-112 | An entry assigns a key if and only if it begins with the key and an equals sign, the key without one |
| `EnvMerge.LastOfIs` | core/envfile.go:106-119 | The last assignment is the entry after which the key is not assigned again |
| `EnvMerge.KeysInOrder` | core/envfile.go:106-119 | The keys stand in the order of their first assignments |
| `EnvMerge.KeysAreDistinct` | core/envfile.go:106-119 | No key appears twice |
| `EnvMerge.MergeInStages` | core/envfile.go:98-127 | Merging a merged list with more gives the same as merging everything at once |

## Left out

- Docker and HTTP adapters, webhook, mail and Slack delivery, templates, logging and metrics: foreign calls and field copying.
- go-cron itself: a table that refuses a taken name or an unreadable schedule and hands out fresh ids; its calls are atomic with the bookkeeping around them, so an operation between the two halves of an add or a removal is not modelled.
- Job panics: `recover` in core/scheduler.go:880 bypasses the stop of the execution.
- Hashing by reflection, validation, defaults and decoding of YAML, JSON, INI and label strings: parameters of the models. At start-up and in a pass the same preparation is assumed.
- Reconcile.Converges: takes map entries that have a source and jobs that have a hash; both sources set the one, and hashing fails only for an unsupported field type (core/common.go:376-394).
- FakeClock.Clock.AdvanceTo: takes exactly the states from which the source's loop ends (`LoopEndsIff`); a channel is not drained while the clock advances.
- Tickers and timers are indices into the clock's lists instead of objects, and jobs of the registry are values with a handle: aliasing of the pointers is not modelled.
- Local, service and Compose jobs from labels, global and webhook labels, and JSON lists in label values: written by the same loop without a merge order to prove.
- Two labels of one container that agree in job type, name and parameter and differ in what follows: the source lets map order decide.
- LabelResolution.SortOrders: says nothing for two containers that agree in state, creation time and name.
- The bulkhead of core/resilience.go: a semaphore that is never resized, of which `Semaphore` is the general case.
- `Retry`, `WaitN` and `calculateDelay`: they decide how long to wait between attempts; what `ExecuteWithRetry` and the token bucket guarantee holds for any waits.
- The run history of core/bare_job.go and `middlewareContainer.Use`: the first is written after the verdict and read by nobody in the chain, the second builds the list of middlewares, which is arbitrary here.
- Wrap-around of the 32- and 64-bit counters, and rounding and jitter of floating point.
- Several readings of the clock within one operation: each operation happens at one point in time.
- PresetCache.HitIffFreshOrPromoted: takes disk writes that succeed, files that read back as written, and a hash without collisions.
- FallbackPolling.RaceFreeRunsAreSafe: is safety only, as is `PollingStops`; that a spawned or cancelled goroutine is ever scheduled is not modelled.
- Registering a hook while `Shutdown` runs.
- NotificationDedup: a key stands for what the source hashes; job name, command and error are hashed without separators.
