# Verification of the condition tracker and the throttle

homerun2-k8s-pitcher decides in two places what it reports about a cluster.

* The **condition tracker** (`internal/informer/conditions.go`) debounces flips of the `Ready` and `Synced` conditions. For
  every object it keeps the last reported state of a condition, its last state that is not ignored, the start of a failure
  that is not reported yet, and one timer that is re-armed and guarded by a sequence number.
* The **throttle** (`internal/throttle/throttle.go`) sits behind it: a cooldown per key in a map that forgets old keys, and a
  rate limit per window that replaces what it drops by one counted summary.

Both hold a lock for the whole of a step, so each is modelled as a transition system over values (`TrackerSpec`,
`ThrottleSpec`) whose steps are the method calls, with the time of the call as an input. The classes in `Tracker` and
`Throttle` work in place as the program does, and every method is proved to take the view of the object exactly where the
transition system goes. The theorems are about runs of the transition systems: any sequence of steps, over any number of
objects and keys.

## How to read it

* A run of the tracker is a sequence of `Update`, `Fire`, `Forget` and `Close`. A `Fire` may carry **any** key and sequence
  number at any time, since a callback that was stopped may already be waiting for the lock. Every theorem holds for such
  runs unless it asks for more.
* Where a theorem asks for **prompt** timers (`Detector.Prompt`), no step passes the time of a callback the clock still holds
  without running it. Callbacks that were stopped or are stale may still run. Such runs always exist: every prompt run goes
  on to any later time (`Resume.PromptRunsGoOn`), and whatever updates, deletions and closing come from outside, there is a
  prompt run for them (`Resume.InputsHavePromptRun`).
* `Slots` projects the maps of an object to one condition and shows that the projection commutes with every step. Most
  theorems about a condition are proved on the projection.
* `Detector` is the reference the tracker is compared with: one condition, no timers, no deadlines, no sequence numbers. It
  looks at the states that are not ignored and checks at each of them whether a failure had lasted `minDuration` by then.
* Time is an integer that does not go back (`Ordered`). "No time" and "no timer" are option values.

| Module | Contents |
|---|---|
| `Common` | time, options, facts about multiples |
| `TrackerSpec`, `Slots`, `Invariant` | the tracker's steps, one condition of it, what every reachable state satisfies |
| `Detector`, `Erasure`, `Baselines`, `History`, `Callbacks`, `Advance`, `Resume`, `Isolation`, `PlainFlips`, `Pitches` | theorems about the tracker |
| `Divergences` | runs on which the tracker does not do what its documentation suggests |
| `Tracker` | the tracker in place |
| `ThrottleSpec`, `ThrottleCounts`, `ThrottleRate`, `ThrottleHistory`, `ThrottleDelivery` | the throttle's steps and theorems |
| `Throttle` | the throttle in place |
| `Pipeline`, `PipelineLimit` | the tracker feeding the throttle |
| `Samples` | the object and the settings of the runs that are written out |

## What the proofs found

* **Windows do not slide.** `rateLimit` is described as at most `max` messages per `per` (`README.md:208-209`). A window of
  the throttle does admit at most `max`, and windows start at least `per` apart (`ThrottleRate.WindowAdmitsMax`,
  `ThrottleRate.WindowsAreApart`), but an interval of length `per` can see `2 * max`, and no more
  (`ThrottleRate.BoundIsReached`, `ThrottleRate.RateBound`). Some run reaches that if and only if `per` is longer than one unit
  of time (`ThrottleRate.BoundIsReachedIff`).
* **A failure also ends without True.** The documentation lets only True end a failure (`README.md:173`). Take a False that was
  pitched, then Unknown, then False again before the Unknown has lasted `minDuration`: nothing more is pitched, while without
  the second False the Unknown is (`Divergences.FailureEndsWithoutTrue`). The exact condition: a state ends a pending failure
  if and only if it is True or has the reported status (`internal/informer/conditions.go:162-164`,
  `History.PendingEndsIff`), which is that of the last flip (`History.PendingEndsIffAsPitched`).
* **A recovery without its failure needs `minDuration` off.** That a recovery is pitched only if its failure was
  (`README.md:172`) holds with `minDuration`, for all statuses but a blank one (`History.RecoveryIffFailureWasPitched`). Without
  it the first update is compared with the old object, and a recovery from a failure that was there before is pitched, at the
  first update or later (`Divergences.RecoveryOfUnseenFailure`, `Divergences.RecoveryOfSilentFailure`). The exact condition: a
  pitched recovery follows a pitched failure if and only if anything was pitched before in its lifetime
  (`History.RecoveryFollowsFailureIff`).
* **A blank status is not a status.** The code uses `""` for "not known yet" (`internal/informer/conditions.go:84-86`), but a
  condition may carry it, or none (`internal/informer/informer.go:230`). A blank failure is pitched, its recovery is not, and
  the next flip can be a blank failure again (`Divergences.BlankFailureTwice`).
* **The old object shows through blank statuses, and only so.** With `minDuration` a lifetime whose first old object was True
  and one whose was not pitch the same flips, unless and only unless `minDuration` after the first state is reached, neither a
  True nor the deletion comes before, and a blank state does after which no other state comes at the very time of the first one
  (`Baselines.OnlyStatesNotIgnoredCount`, `Baselines.BaselineShowsIff`). False and then blank shows it
  (`Divergences.LaterBlankShows`); blank and then True in time does not (`Divergences.BlankThenTrueHides`), nor does blank and
  then False at once (`Divergences.BlankForNoTimeHides`).
* **"As for plain flips" has an exact limit.** Without `minDuration` and with nothing ignored, the tracker and the plain filter
  differ exactly when a condition that had vanished comes back with another status, or turns True from a blank one
  (`PlainFlips.TrackerIsPlainFilter`). `Divergences.VanishedConditionComesBack` and `Divergences.TrueAfterBlank` are a run of
  either kind.
* **Sequence numbers alone do not protect a re-created object.** They start at 0 again, so a stopped callback of the first
  lifetime can be accepted in the second (`Divergences.StaleCallbackIsAccepted`). Within its own lifetime a callback is accepted
  if and only if it is still the timer (`Callbacks.AcceptedIffStillTimer`). In another one the time guard is what makes it
  harmless (`Callbacks.EarlyCallbackIsHarmless`).
* **The cooldown may eat flips, depending on its length.** At most `minDuration` long it drops a flip of the tracker if and only
  if another source had an event with the same key admitted less than the cooldown ago (`Pipeline.FlipsDroppedIffForeign`). The
  key of a flip holds cluster, kind, namespace, name and title, but no API group (`internal/informer/informer.go:293-294`), so
  two informers can share one. For every longer cooldown there is a run in which it drops a failure of the tracker's own
  (`PipelineLimit.LongerCooldownDropsFlips`).

## Model

| member | source | states |
|---|---|---|
| Tracker.ConditionTracker.Update | internal/informer/conditions.go:117-189 | an update takes the tracker, its maps, timers and the clock's callbacks exactly where the transition system goes, pitches what it emits, and keeps the invariant |
| Tracker.ConditionTracker.ObserveCondition | internal/informer/conditions.go:137-178 | one pass of the loop: baseline of a first observation, drop of a pending failure, recovery, immediate flip or start of a pending failure, with only the maps of this object changed |
| Tracker.ConditionTracker.Observe | internal/informer/conditions.go:136-179 | the loop over the watched conditions, in their order |
| Tracker.ConditionTracker.Earliest | internal/informer/conditions.go:194-199 | in whatever order the map is walked, the earliest deadline of the pending failures, or none |
| Tracker.ConditionTracker.ScheduleTimer | internal/informer/conditions.go:193-214 | a timer for the same deadline is kept; otherwise the old one is stopped, the sequence number grows, and a callback for the deadline is handed to the clock |
| Tracker.ConditionTracker.Fire | internal/informer/conditions.go:217-250 | any callback at any time: not accepted it changes nothing but the clock; accepted it takes out what is due, pitches it with the latest object and re-arms |
| Tracker.ConditionTracker.ExpirePending | internal/informer/conditions.go:226-242 | the loop of a callback: what is due becomes reported with its current state, the rest stays pending, and the longest failure is remembered |
| Tracker.ConditionTracker.Forget | internal/informer/conditions.go:253-261 | the state of a deleted object is dropped and exactly its timer is stopped |
| Tracker.ConditionTracker.Close | internal/informer/conditions.go:264-274 | every timer is stopped, whatever order the objects are walked in, and nothing is tracked |
| Tracker.FlipEventOf | internal/informer/conditions.go:42-65 | the running maximum of the loop is the rank of the worst flip |
| TrackerSpec.SeverityIsWorst | internal/informer/conditions.go:42-65 | error if and only if some flip is Ready to False, success if and only if all are recoveries, warning otherwise |
| Slots.StepSlot | internal/informer/conditions.go:117-274 | every step of the tracker is, for one condition, a step of its three map entries alone: same next state, same pitched states |
| Invariant.StepInv | internal/informer/conditions.go:83-98 | update, any callback, forget, re-creation and close keep: reported and current known together, a failure pending exactly while they differ, one timer at the earliest deadline held by the clock |
| Invariant.MapsAgree | internal/informer/conditions.go:83-98 | after any run reported and current have the same keys, a condition is pending if and only if its current status is not the reported one, none pending is True, and none is pending without minDuration |
| Invariant.EarliestDueIsMinimum | internal/informer/conditions.go:193-199 | the deadline is that of some pending failure and not later than any of them |
| Invariant.NoPendingFailureIsLost | internal/informer/conditions.go:193-250 | after any run with any callbacks, an object has a timer if and only if a failure is pending; its callback is still with the clock, is due at the minimum of since + minDuration, and will be accepted |
| Detector.TrackerRefinesDetector | internal/informer/conditions.go:117-250 | with minDuration and prompt timers the flips of a condition, states and times, are exactly those the timerless detector finds |
| Advance.HoldsRun | internal/informer/conditions.go:193-214 | if only held callbacks run, the clock always holds exactly the timers of the objects, each once |
| Advance.AdvanceTo | internal/informer/conditions_test.go:58-82 | from any prompt run in which only held callbacks ran, the clock gets to any later time with at most one callback per pending failure of all objects, each of which pitches, and nothing due is left |
| Resume.PromptRunsGoOn | internal/informer/conditions_test.go:58-82 | any prompt run, with stopped and stale callbacks in it as well, goes on to any later time with callbacks alone, after which nothing is due |
| Resume.AdvanceFindsEveryFlip | internal/informer/conditions.go:117-250 | once the clock has so advanced from any prompt run, the flips of every condition of every object are those the detector finds in what was shown |
| Resume.InputsHavePromptRun | internal/informer/conditions_test.go:58-82 | whatever updates, deletions and closing come from outside and whenever, there is a prompt run for them in which only held callbacks run |
| Baselines.OnlyStatesNotIgnoredCount | README.md:163-179 | two prompt runs that show the same states of a condition that are not ignored pitch the same flips at the same times, whatever the ignored states, other conditions, other objects and old objects, unless and only unless a lifetime with different baselines shows it |
| Baselines.BaselineShowsIff | internal/informer/conditions.go:143-170 | when only one old object differs, the flips differ if and only if it is that of the first state of a lifetime, was True in one run only, minDuration after it is reached, neither a True nor the end of the lifetime comes before, and a blank state does after which no other comes at the time of the first |
| Baselines.OldObjectsDoNotCount | README.md:176-178 | with no blank status the old objects change no flip and no time of one |
| Erasure.SameObservationsSameFlips | internal/informer/conditions.go:136-179 | the states shown decide the flips and their times, whatever the callbacks and their sequence numbers: under prompt timers with minDuration, always without |
| Erasure.ErasedStepChangesNothing | README.md:163-175 | inserting or deleting, among the updates and deletions, an update in which a condition is ignored or missing changes none of its flips and none of their times; each of the two runs has the callbacks it arms itself |
| Erasure.ImmediateFlipsAreChanges | internal/informer/conditions.go:143-173 | without minDuration, under any callbacks, the flips are exactly the status changes of the states that are not ignored, the first one compared with the baseline and a True after a blank status aside |
| History.DelayedFailureIsReal | internal/informer/conditions.go:161-178 | under any callbacks, a failure pitched by a callback began at an update at least minDuration earlier in the same lifetime; since then no state that counts was True or the reported one, and the pitched state is the latest |
| History.LastingFailureIsPitched | README.md:167-170 | under prompt timers, a failure that begins from True or from the first state of a lifetime and lasts minDuration without a True or the reported status is pitched exactly then, with its latest state |
| History.NoFailureIsPitchedTwice | internal/informer/conditions.go:231-238 | under any callbacks, blank statuses and lifetimes: when two callbacks pitch a condition, the failure of the later one began at an update strictly between them, at least minDuration before the later one, and ran on since |
| History.PendingEndsIff | internal/informer/conditions.go:161-178 | a state that is not ignored ends a pending failure if and only if it is True or has the reported status |
| History.PendingEndsIffAsPitched | internal/informer/conditions.go:161-178 | the same by what was pitched: a state that is not blank ends it if and only if it is True or has the status of the last flip of the lifetime |
| History.CurrentIsLastShown | internal/informer/conditions.go:87-88 | current is the last state of the lifetime that is not ignored, and set as soon as there is one, so the delayed message shows the last failure state |
| History.FlipsAlternate | internal/informer/conditions.go:161-178 | over a lifetime reported is the last pitched state, consecutive flips differ in status unless both are blank, and with minDuration the first is a failure |
| History.RecoveryIffFailureWasPitched | README.md:172 | with minDuration a True that counts is pitched if and only if the last flip of the lifetime is a failure whose status is not blank |
| History.RecoveryFollowsFailureIff | README.md:172 | for any minDuration a pitched recovery directly follows a pitched failure with a status if and only if anything was pitched before in its lifetime; with minDuration something was |
| History.FlipsAreApart | internal/informer/conditions.go:174-177 | with minDuration two failures of a condition are at least minDuration apart, and so are two recoveries, across deletion, re-creation and stale callbacks |
| History.HandedFlipsAreApart | internal/informer/conditions.go:74-78 | the flips are as far apart where they are handed over, however long that takes, since the lock covers it |
| History.FailuresPerInterval | README.md:167-170 | at most L / minDuration + 1 failures of a condition in any closed interval of length L |
| Callbacks.SeqIsActedOnOnce | internal/informer/conditions.go:96-97 | within one lifetime accepted callbacks have increasing sequence numbers, so none is acted on twice |
| Callbacks.TimerIsKeptOrPassed | internal/informer/conditions.go:96-97 | once an object has a timer, at every later step of the lifetime it still has it or its sequence number has been passed |
| Callbacks.AcceptedIffStillTimer | internal/informer/conditions.go:96-97 | within its lifetime a callback that was the timer is accepted if and only if it still is, so one that was replaced or stopped is not |
| Callbacks.EarlyCallbackIsHarmless | internal/informer/conditions.go:220-250 | an accepted callback before the deadline, such as one of a forgotten object, pitches nothing, keeps everything pending and re-arms for the same deadline |
| Callbacks.CallbackOnTimePitches | internal/informer/conditions.go:231-249 | an accepted callback on time pitches at least one flip of the tracked object, says how long the earliest pending failure has lasted and since when, and takes out exactly what is due |
| Callbacks.PromptFailuresLastMinDuration | README.md:167-171 | with prompt timers every "Failing for" is minDuration exactly |
| Callbacks.TimersRunDry | internal/informer/conditions.go:193-250 | with nothing but its timer running, an object is left with nothing pending and no timer after at most as many callbacks as failures were pending |
| Pitches.IgnoredIff | internal/informer/conditions.go:108-111 | an update leaves all that is known of a condition as it is, and pitches nothing of it, when the status shown is one of ignoreStatuses or the reason shown is not empty and one of ignoreReasons; any other state becomes current |
| Pitches.SeverityOfPitch | internal/informer/informer.go:193-195 | whatever pitches flips, update or callback: error if and only if some flip is Ready to False, success if and only if all are to True, warning otherwise |
| Pitches.UpdateWithoutFlips | internal/informer/conditions.go:182-188 | for any minDuration, an update that pitches no flip is pitched as info, with the new object, if and only if the generation changed and the mode is not `flips` |
| Pitches.UpdateWithFlips | internal/informer/conditions.go:182-185 | an update that pitches flips pitches the new object and says nothing of a duration |
| Pitches.OthersAreSilent | internal/informer/conditions.go:243-249 | only updates and callbacks pitch, and a callback never without flips |
| Pitches.FlipsInOrder | internal/informer/conditions.go:136-179 | the flips of any pitch are at most one of Ready and then at most one of Synced |
| Pitches.PitchesLatest | internal/informer/conditions.go:92-93 | a pitch is about the latest version of its object since it was last deleted, for a delayed failure as well |
| Pitches.TimerKeptIff | internal/informer/conditions.go:200-206 | an update keeps an armed timer if and only if the earliest deadline stays, and then does not touch the clock |
| Isolation.ObjectsDoNotInterfere | internal/informer/conditions.go:117-131 | in any interleaving the state of an object and all that is pitched for it are those of its own steps alone |
| Isolation.CloseIsFinal | internal/informer/conditions.go:263-274 | after close no update or callback pitches or tracks anything |
| PlainFlips.DecideUpdate | internal/informer/informer.go:196-219 | the loop over the watched conditions and the modes decide as the specification of the plain filter does |
| PlainFlips.PlainlyPitchedIff | internal/informer/informer.go:189-219 | the event of every update in every mode: with `all` one that says nothing; in the modes that watch flips the conditions both versions have with another status, Ready first, with their new states and the severity of the worst; else info for a generation change unless the mode is `flips` |
| PlainFlips.TrackerIsPlainFilter | internal/informer/conditions.go:143-189 | without minDuration, with nothing ignored and each old object the latest one, the tracker pitches what the plain filter does if and only if no condition re-appears with another status or turns True from a blank one |
| PlainFlips.TrackerIsPlainFilterOnSteadyStreams | internal/informer/informer.go:196-219 | on streams whose conditions never vanish and are not blank the two agree on every update, in both modes |
| PlainFlips.CallbacksAreSilentWithoutMinDuration | internal/informer/conditions.go:171-173 | without minDuration no callback ever pitches |
| Throttle.Pitcher.Pitch | internal/throttle/throttle.go:63-79 | an offer takes the throttle where the transition system goes and hands over the summary, then the event with its repeats; a failed summary is passed over, the failure of the event is returned |
| Throttle.Pitcher.Admit | internal/throttle/throttle.go:84-109 | cooldown, then rate limit, then the start of the cooldown, with nothing else changed |
| Throttle.Pitcher.CloseWindow | internal/throttle/throttle.go:114-148 | old keys are forgotten in whatever order the map is walked, and a window that is over is replaced and summarised |
| Throttle.Pitcher.EvictOld | internal/throttle/throttle.go:115-121 | exactly the keys admitted twice the cooldown ago or longer are dropped |
| Throttle.Pitcher.Flush | internal/throttle/throttle.go:152-161 | a finished window is summarised without an event |
| ThrottleCounts.Conservation | internal/throttle/throttle.go:84-137 | in every interleaving offered = admitted + dropped by cooldown + dropped by rate, and rate drops = what the summaries count + what is still to be counted |
| ThrottleCounts.OffMeansOff | internal/throttle/throttle.go:42-43 | without a rate limit nothing is dropped or summarised by it, without a cooldown nothing is dropped by it |
| ThrottleRate.WindowAdmitsMax | internal/throttle/throttle.go:94-101 | after any run exactly one window has started since the start of the current one, it has admitted at most max events, `sent` counts exactly these and `suppressed` exactly those the rate limit dropped in it |
| ThrottleRate.RateDropIff | internal/throttle/throttle.go:94-101 | the rate limit drops an offer if and only if the cooldown does not, the current window is not over, and exactly max events were admitted in it |
| ThrottleRate.FirstOfferIsAdmitted | internal/throttle/throttle.go:84-109 | the first offer of a run is admitted, without repeats, whatever its key and the limits are |
| ThrottleRate.WindowsAreApart | internal/throttle/throttle.go:125-134 | any two windows of a run start at least per apart |
| ThrottleRate.SummaryCountsWindow | internal/throttle/throttle.go:129-137 | a step produces a summary if and only if it ends a window in which something was dropped, and the summary counts exactly that |
| ThrottleRate.RateBound | internal/throttle/throttle.go:122-137 | any half-open interval of length L sees at most ceil(L / per) starts of windows, at most as many summaries, and at most max * (ceil(L / per) + 1) admitted events |
| ThrottleRate.BoundIsReached | README.md:208-221 | for every max and per > 1 a run admits 2 * max events within an interval of length per, all the bound allows |
| ThrottleRate.BoundIsReachedIff | README.md:208-221 | such a run exists if and only if per is longer than one unit of time |
| ThrottleHistory.SeenIsHistory | internal/throttle/throttle.go:37-40 | the entry of a key is when it was last admitted and how often the cooldown dropped it since, until twice the cooldown |
| ThrottleHistory.CooldownIff | internal/throttle/throttle.go:85-93 | an offer is dropped by the cooldown if and only if its key was admitted less than the cooldown ago, rate limited offers not counting |
| ThrottleHistory.RepeatsAreExact | internal/throttle/throttle.go:102-107 | an admitted event says "n since t" if and only if its key was last admitted at t less than twice the cooldown ago and the cooldown dropped exactly n > 0 of its offers since |
| ThrottleHistory.AdmittedAreApart | README.md:207 | two admitted events with one key are at least the cooldown apart |
| ThrottleHistory.EvictionIsInvisible | internal/throttle/throttle.go:115-121 | forgetting keys after twice the cooldown changes no decision and no summary of any run, compared with a map that never forgets |
| ThrottleDelivery.HandedOverExactlyOnce | internal/throttle/throttle.go:63-79 | with deliveries outside the lock, in every interleaving, what a call handed over followed by what it still holds is what its critical section decided: nothing lost, doubled or reordered |
| ThrottleDelivery.CallsHandOver | internal/throttle/throttle.go:70-78 | in every interleaving, what a call handed over followed by what it still holds is the summary of the window it closed, if any, and then the event with the repeats it was admitted with, if it was |
| ThrottleDelivery.NothingIsLost | internal/throttle/throttle.go:63-79 | handed over + in flight = admitted + summaries |
| Pipeline.GenerationChangesPass | internal/informer/informer.go:293-296 | a generation change the tracker pitches is offered without a key and never dropped by the cooldown |
| Pipeline.FlipsDroppedIffForeign | README.md:182 | with a cooldown of at most minDuration the cooldown drops flips the tracker pitches if and only if another source had an event with their key admitted less than the cooldown ago, at whatever time between this step and the next each pitch reaches the throttle |
| Pipeline.CooldownSparesFlips | README.md:182 | with a cooldown of at most minDuration, and other sources that use no key of a flip of this tracker, the cooldown never drops a flip |
| PipelineLimit.LongerCooldownDropsFlips | README.md:182 | for every minDuration > 0 and every longer cooldown a run exists in which the cooldown drops a failure the tracker pitches |
| Divergences.FailureEndsWithoutTrue | README.md:173-175 | False pitched, then Unknown: pitched when it lasts; with False again in between nothing more is pitched, for all times at which this happens |
| Divergences.BlankFailureTwice | README.md:172 | a blank failure is pitched, its recovery is not, a second blank failure is |
| Divergences.RecoveryOfUnseenFailure | README.md:172 | without minDuration a first update from False to True is pitched |
| Divergences.RecoveryOfSilentFailure | README.md:172 | without minDuration a False that was there before the first update is not pitched, its recovery at any later update is |
| Divergences.LaterBlankShows | internal/informer/conditions.go:143-170 | first False, then blank before it is due: the blank failure is pitched when the old object was True and not when it was False |
| Divergences.BlankThenTrueHides | internal/informer/conditions.go:143-170 | first blank, then True before it is due: nothing is pitched, whatever the old object was |
| Divergences.BlankForNoTimeHides | internal/informer/conditions.go:143-170 | first blank, then False at the same time: the failure is pitched at the same time, whatever the old object was |
| Divergences.VanishedConditionComesBack | internal/informer/conditions.go:146-149 | True, vanished, back as False: the tracker pitches it, the plain filter none of the updates |
| Divergences.TrueAfterBlank | internal/informer/conditions.go:165-170 | from a blank status to True: the plain filter pitches it, the tracker does not |
| Divergences.StaleCallbackIsAccepted | internal/informer/conditions.go:220-235 | the stopped callback of a deleted object is accepted by the re-created one, pitches nothing and arms the timer again for the right deadline |

## Left out

- The Kubernetes client, dynamic informers, Redis, HTTP and file pitchers, secret lookup and signal handling: I/O.
- The collectors and the webhook: for the throttle they are further sources of events (`Pipeline.Input.Other`).
- The dispatch of `handlerFor` and the Event filter `eventPasses` (`internal/informer/informer.go:106-184`): one-branch decisions.
- Unstructured objects: an object is its key, its generation and a map from condition type to status and reason; the lookup of the first entry of a type in the list (`internal/informer/informer.go:223-235`) is that map.
- Text: an event carries its flips, the "Failing for" span and its severity instead of title and summary; rounding to seconds, RFC 3339 formatting and the fields `Manager.pitch` adds are not modelled.
- The text of `cooldownKey` (`internal/informer/informer.go:285-297`): `Pipeline` takes any function to a key that is not empty and equal, among the flips the tracker pitches, only for one object and flips whose last ones are of one condition and both failures or both recoveries. The joined text is such a function as long as kinds, names, statuses and reasons hold none of its separators.
- `int64` overflow of durations and jumps of the wall clock: time is an unbounded integer that does not go back.
- Goroutine scheduling inside a critical section: a region under the lock is one step. Timer callbacks and the deliveries of the throttle are the steps that interleave.
- What becomes of a message the wrapped pitcher fails on: handed over counts as delivered. Logging, `HealthCheck` and the ticker of `Run` are not modelled.
- Profile parsing and validation: what it guarantees about the throttle is `Limits.Valid`; the theorems about the tracker need nothing of it and hold for negative `minDuration` and any ignored status as well.
- Throttle.Pitcher.Pitch: one call delivers before the next begins; calls that overlap after the lock are in `ThrottleDelivery`.
- History.FlipsAlternate: two blank statuses may follow each other, and after a pitched blank failure reported may be a True that was not pitched; the code takes blank for "not known".
- Pipeline.CooldownSparesFlips: excludes other sources that use the key of a flip; `Pipeline.FlipsDroppedIffForeign` does not.
- History.LastingFailureIsPitched: a failure that begins at a failure already pitched is left to `Detector.TrackerRefinesDetector`.
- Callbacks.TimersRunDry: runs the timer of one object; all objects together are in `Advance.AdvanceTo`.
