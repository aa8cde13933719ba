# A verified model of the SoC frequency arbiter

Applications and system services ask for performance ("boosts"), for limits (power, thermal, battery) and for
performance levels, each on a resource such as the lowest or highest frequency of a CPU cluster. The arbiter keeps
the live requests of every resource in five lists, one per type, and maintains, one request at a time:

* a candidate per type (the greatest value for boosts, the least for limits) and the time at which it ends;
* a candidate per resource, from a table over two limit switches and an override by performance levels;
* the value applied to each resource, coupled across the two members of a min/max pair;
* a counter of interactive boosts, and a timer automaton that posts a weak request when boosting is over;
* partial reports of what changed to two receivers.

All of this is cached state. The project models it at three levels and ties them together.

1. **From scratch** (`Arbitration`): what each cached number should be, as a function of live lists and options,
   without sentinels, caches or history.
2. **Step by step** (`LiveList`, `ArbiterState`, `Tasks`, `System`, `Throttle`, `LimitProtocol`, `Requests`): the
   state with its sentinels, what each operation makes of it, the serial task queue with its timers, the automaton and
   the report receivers, and runs of events from start-up.
3. **As objects** (`ArbiterObjects`, `Arbiter`, `FrontEnd`, `RequestChain`, `LruCache`, `Split`, `ModeTable`): classes
   with the source's fields, updated in place by methods named after the source's functions. Each method is proved to
   compute the step of level 2; `SocPerfThreadWrap.Whole` is the level-2 state of the object.

Theorems over whole runs are in `Runs`, `RunTheorems`, `Pairs`, `Staleness`, `Undo`, `ChainUndo`, `OffRequests`,
`Counter`, `Reports`, `Settings`, `Weak`, `WeakLive`, `WeakPacks`, `WeakTimers`, `Quiescence`, `Timers`, `Survival`,
`LimitProtocol`, `LimitRequests`, `EndTimes`, `Throttle` and `CacheRuns`; `RequestMeaning` and `CommandPairs` say in the
terms of the configuration what a request and a command ask for. `Witnesses`, `DriftWitness` and `ModeWitness` have
reachable runs, of requests as the front end makes them, in which the failing side of an exact condition is met. Runs of
the service project onto runs of the arbiter (`SystemRuns.ReachSysProjects`), so theorems about `Tasks.Reach` hold of
every state the service reaches.

`dafny verify dfyconfig.toml` verifies the project.

## Reading the model

* A request is the value type `ResAction`; its `id` stands for the address of the source's shared object, so two
  requests are the same object exactly when they are equal. New objects get fresh addresses.
* `candLevel` and `pairLevel` record the thermal level at which a candidate or an applied value was last computed. The
  source does not store them; they make it possible to say what is out of date after the level has been set.
* The queue runs one task at a time. Tasks without delay run in submission order. A delayed task runs only once it is
  due, and not before a waiting task that was submitted before it was due; any number of events may lie in between.
  Cancelling a delayed task is atomic. This is weaker than ordering by due time, so the theorems hold of that as well.
* Unordered containers are walked in an arbitrary order; where the order could matter it is a parameter.

What the theorems take as given: resource ids lie in the admitted range; pairs are symmetric with exactly one maximum
member (the loader only looks for the partner's existence); live values are between 0 and the largest int64, durations
are at least 0, and a millisecond clock plus a duration fits int64; a request made by a client fits int32; the
available values of a resource are not negative. The throttle lets the first OFF after an ON through because the clock
itself reads more than its interval (`FirstOffVerdict` is exact, and says so of any clock). Narrower scopes are part of
the statements they belong to.

## Findings

* Setting the thermal level re-arbitrates nothing. In any reachable state a resource's candidate is out of date exactly
  when it was last arbitrated on the other side of level zero and a performance level asks for more than the other
  requests get (`StaleExactly`; `StaleCandidate` is a run). Flipping either switch repairs it (`SwitchHealsLevel`), and
  a level that is set while no performance level is live does no harm (`FixedLevelIsCurrent`). The order of a pair
  survives in any case (`PairOrder`).
* A limit of a switched-on kind is exceeded exactly when a higher performance level is live on the resource and was
  arbitrated at a level other than zero (`LimitExceeded`; `ExceededLimit` is a run).
* The boost counter is right exactly while a perf request erases only entries with its own interaction flag
  (`InstantConserves`); the flag is not part of the comparison that erases. In `DriftedCounter` an interaction's timer
  fires while a client's request of the same command waits: the service ends with one request counted, none live, and
  nothing left to run.
* The OFF request of a command asks for the thermal actions of the level at which it is made. It takes everything back
  exactly if it brings every thermal pair again that the ON brought, whatever other commands do in between
  (`TakenBackExactly`; in `OffMissesOn` the service runs both to the end and the thermal request of the ON is still live).
* The weak requests of an interaction are live exactly while it is weak as long as the performance mode does not change
  in a weak phase. If it does, the OFF pack is that of the other command (services/core/src/socperf_thread_wrap.cpp:241),
  and the values of the first stay live until the mode is back (`ModeStrands`; `StrandedByMode` is a run that ends with
  boosting on, nothing left to run and the value still live).

## Model

| member | source | states |
|---|---|---|
| LiveList.EraseWf | services/core/src/socperf_thread_wrap.cpp:444-505 | Erasing by any of the three comparisons keeps a list free of OFF entries and of two TotalSame entries, and leaves nothing the comparison would hit again. |
| LiveList.InstantWf | services/core/src/socperf_thread_wrap.cpp:460-505 | Filing or withdrawing a request keeps the list free of OFF entries and TotalSame doubles. |
| LiveList.EraseAt | services/core/src/socperf_thread_wrap.cpp:447-457 | A loop that stops at its first hit removes exactly that entry. |
| LiveList.EraseCommutes | services/core/src/socperf_thread_wrap.cpp:444-505 | Two removals that never compete for an entry commute. |
| Arbitration.TopValue | services/core/src/socperf_thread_wrap.cpp:525-545 | The winning value is some entry's value, and the greatest for perf kinds, the least for limit kinds. |
| Arbitration.TopEnd | services/core/src/socperf_thread_wrap.cpp:525-545 | The end time is the latest among the entries with the winning value. |
| Arbitration.Wanted | services/core/src/socperf_thread_wrap.cpp:547-595 | Nothing is wanted exactly when no type has a candidate, and what is wanted is a value and not a sentinel. |
| ArbiterFacts.TableCodes | services/core/src/socperf_thread_wrap.cpp:564-595 | The nested conditions over INT_MIN sentinels compute the option-valued table: a switched-on limit beats every boost, a switched-off one is one more request. |
| ArbiterFacts.OverrideCodes | services/core/src/socperf_thread_wrap.cpp:610-617 | The performance level caps the candidate at level 0 and replaces it at any other, also on sentinels. |
| ArbiterFacts.CoupleSets | services/core/src/socperf_thread_wrap.cpp:631-690 | Coupling writes both members of a pair, and gives the same result whichever is written first. |
| ArbiterFacts.TopStep | services/core/src/socperf_thread_wrap.cpp:531-542 | One more entry moves the winner and its end time as the loop body does. |
| Agreement.SetListAgrees | services/core/src/socperf_thread_wrap.cpp:507-523 | Replacing one list keeps every cached number right although arbitration is skipped when the type's candidate and end time did not move. |
| Agreement.ArbitrateSettles | services/core/src/socperf_thread_wrap.cpp:547-683 | Arbitrating one resource makes it and its partner right and leaves every other settled resource right. |
| Agreement.AgreesMeans | services/core/src/socperf_thread_wrap.cpp:507-714 | The invariant is equality of the whole status with the one rebuilt from the live lists. |
| Runs.IncrementalIsFromScratch | services/core/src/socperf_thread_wrap.cpp:444-714 | After every run each candidate, end time, resource candidate, current end time and coupled applied value equals the value rebuilt from the live lists, the switches and the recorded levels. |
| Runs.ApplyAgrees | services/core/src/socperf_thread_wrap.cpp:59-144 | Every elementary operation of every task keeps that agreement. |
| RunTheorems.ColdRunsAreCurrent | services/core/src/socperf_thread_wrap.cpp:547-683 | While the level stays zero the rebuilt status may use the present level: nothing is ever stale. |
| RunTheorems.SwitchHealsLevel | services/core/src/socperf_thread_wrap.cpp:77-105 | After a switch flip, and until the level crosses zero again, every value is the from-scratch value at the present level. |
| Staleness.StaleExactly | services/core/src/socperf.cpp:332-346 | In every reachable state a candidate, and an unpaired resource's applied value, is the from-scratch one at the present level if and only if it was last arbitrated on the same side of zero or no performance level would lift it; the other cached numbers always are. |
| Staleness.StaleWhenLimited | services/core/src/socperf.cpp:332-346 | With a limit switch on, the same if-and-only-if holds of a max member's applied value. |
| Staleness.PairStaleExactly | services/core/src/socperf_thread_wrap.cpp:631-683 | While the candidates of both members of a pair are up to date, the applied value of either is if and only if the same member rules now as when it was applied, or the min member does not ask for more than the max member. |
| Staleness.FixedLevelIsCurrent | services/core/src/socperf.cpp:332-346 | A level set, to anything, while no performance level is live leaves nothing out of date until it crosses zero. |
| Witnesses.StaleCandidate | services/core/src/socperf.cpp:344-345 | A run of one boost, one performance level and a level change after which candidate and applied value are out of date. |
| RunTheorems.PairOrder | services/core/src/socperf_thread_wrap.cpp:631-683 | After every run, level changes included, the min member's applied value is at most the max member's unless one of them is the default. |
| Pairs.PairValues | services/core/src/socperf_thread_wrap.cpp:631-683 | After every run: if only one member of a pair has a request each gets its own candidate; if both have one, then with a switch on, or a performance level live at a level other than zero, the max member gets its own and the min member the lesser of the two, and otherwise the min member gets its own and the max member the greater. |
| Pairs.UnpairedValue | services/core/src/socperf_thread_wrap.cpp:637-645 | A resource without a partner gets its own candidate, -1 exactly when nothing is asked of it. |
| Pairs.EndTimeIs | services/core/src/socperf_thread_wrap.cpp:507-595 | After every run a resource's end time is the least, over the boosts, power limits and thermal limits live on it, of the latest end among the requests that decide their list, and the greatest int64 if there are none. |
| RunTheorems.DefaultMeansIdle | services/core/src/socperf_thread_wrap.cpp:700-714 | The default is applied if and only if all four lists of the resource are empty. |
| RunTheorems.LimitGuarantee | services/core/src/socperf_thread_wrap.cpp:564-683 | With a switched-on limit live and no performance level on it, a resource that is not a min member gets exactly the least of its switched-on limits, whatever boosts are live on it or its partner. |
| RunTheorems.LimitExceeded | services/core/src/socperf_thread_wrap.cpp:597-629 | A switched-on limit is exceeded if and only if a higher performance level is live and was arbitrated at a level other than zero. |
| Witnesses.ExceededLimit | services/core/src/socperf_thread_wrap.cpp:597-629 | The device is hot, a client's power limit of 2 is filed and its switch is on; a boost whose thermal action brings a performance level of 3 then gets 3 applied. |
| RunTheorems.SwitchOrderFree | services/core/src/socperf_thread_wrap.cpp:77-105 | The outcome of a switch flip is the same for every order in which the resources are walked. |
| Undo.OffUndoesOn | services/core/src/socperf_thread_wrap.cpp:460-505 | From any agreed state, an ON of a key that is not live and its OFF, with any operations on other keys between them, leave every status as if neither had happened, whether or not the request's timer fired. |
| Undo.RequestUndone | services/core/src/socperf_thread_wrap.cpp:59-75 | The same for runs of tasks from start-up while the level stays zero, for a pack of one item. |
| Undo.ListsUndone | services/core/src/socperf_thread_wrap.cpp:444-545 | For a pack of one item, whatever the level does, the lists, the candidates of every type and their end times are those of the run without the ON and OFF. |
| ChainUndo.ChainUndone | services/core/src/socperf_thread_wrap.cpp:59-75 | From a state whose caches are right, any operations on other keys between a whole chain of ON requests, repeated ones included, and the matching chain of OFF requests end in the lists they would have ended in alone. |
| ChainUndo.ChainTakenBack | services/core/src/socperf.cpp:387-423 | The same for runs from start-up with the candidates and end times, whatever the level does; and for every status if nothing was out of date and the level does not cross zero meanwhile. |
| Counter.InstantDrift | services/core/src/socperf_thread_wrap.cpp:460-505 | By how much a perf request moves the counter against the number of live interactive entries. |
| Counter.InstantConserves | services/core/src/socperf_thread_wrap.cpp:460-505 | The counter stays in step if and only if nothing is erased or the erased entry has the request's own flag. |
| DriftWitness.DriftedCounter | services/core/src/socperf_thread_wrap.cpp:212-286 | A run of the service from start-up in which a client's request of an interaction's own command is taken over by the interaction's pack and withdrawn with it: the counter stays at one with nothing live, nothing queued and no timer pending. |
| Counter.BoostConserved | services/core/src/socperf_thread_wrap.cpp:130-144 | In every run whose flags are a function of the command, boostResCnt is the number of live interactive entries plus those ever dropped by clears. |
| SystemRuns.SysStepOk | services/core/src/socperf_thread_wrap.cpp:59-152 | Every event of the service leaves statuses, reports, automaton records and queued tasks well formed. |
| SystemRuns.RunTaskOk | services/core/src/socperf_thread_wrap.cpp:59-144 | A task changes the arbiter as its operations say, reports exactly if its body reports, and otherwise only touches the automaton and the queue. |
| SystemRuns.ReachSysProjects | services/core/src/socperf_thread_wrap.cpp:42-152 | Every state of the service is, for the arbiter, a state reached by a run of tasks. |
| Reports.ReportsReplay | services/core/src/socperf_thread_wrap.cpp:154-181 | At every point of every run the initial report and all later partial ones add up, per receiver, to the present value of each of its resources, and for the perf library also to its end time. |
| Reports.ReportNamesChanges | services/core/src/socperf_thread_wrap.cpp:288-364 | A task's report names exactly the resources of the receiver whose value or end time it changed; there is none when it changed none. |
| Weak.AutomatonInvariant | services/core/src/socperf_thread_wrap.cpp:218-258 | In every reachable state a weak timer is pending, exactly one, for exactly the interactions in BOOST_END, and ON and OFF packs strictly alternate with the last one ON exactly in WEAK. |
| Weak.BoostExactly | services/core/src/socperf_thread_wrap.cpp:218-258 | Once a task has run to its end, an interaction is in BOOST if and only if weak mode is off or the counter is not zero. |
| Reports.ReportsTell | services/core/src/socperf_thread_wrap.cpp:288-364 | At every point of every run the receiver of a resource, and no other, knows the value applied to it; the perf library, if there is one, also knows its end time. |
| Settings.SettingsMove | services/core/src/socperf_thread_wrap.cpp:77-216 | Each switch and mode is moved by running its own task, and the thermal level by setting it, and by no other event. |
| Settings.StartsSo | services/core/include/socperf_thread_wrap.h:68-79 | At start-up the switches are off, the level and the counter are zero, weak interaction is allowed, the performance mode is off, and nothing is requested, applied or queued. |
| Settings.ClearEmpties | services/core/src/socperf_thread_wrap.cpp:127-144 | A clear empties the perf list of every resource and no other list, and leaves the counter alone. |
| CommandPairs.PairsListed | services/core/src/socperf_thread_wrap.cpp:267-270 | A command asks for exactly the pairs of id and value that its actions list for known resources; an id without a value does not count. |
| WeakPacks.PostsCommandInForce | services/core/src/socperf_thread_wrap.cpp:196-286 | In every reachable state, what a task posts of its own accord asks for exactly what the command in force lists, untimed and without end: 39101 for an interaction of 9101 in performance mode, its own command otherwise; ON as the interaction's timer fires, OFF as any other task runs. |
| WeakTimers.WaitsItsDelay | services/core/src/socperf_thread_wrap.cpp:221-257 | An interaction whose boosting ends waits for a task due 1000 times its delay later; no event prolongs or shortens the wait, and it becomes weak only by that task, once it is due. |
| WeakLive.LiveExactlyWhenWeak | services/core/src/socperf_thread_wrap.cpp:196-286 | From any moment at which an interaction is not weak and its type and command are unused, in either performance mode: if nothing else uses them and the mode stays, running the queued packs leaves each value of the command in force live once if the interaction is weak, and none otherwise. |
| WeakLive.StartBegins | services/core/src/socperf_thread_wrap.cpp:42-57 | Start-up is such a moment for the normal mode. |
| WeakLive.ModeBegins | services/core/src/socperf_thread_wrap.cpp:183-193 | The performance mode switched on is such a moment for that mode. |
| WeakLive.ModeStrands | services/core/src/socperf_thread_wrap.cpp:196-258 | After such a stretch a switch of the performance mode leaves the values of the command that was in force live, as long as the mode stays, if and only if the interaction was weak at the switch, whatever it does afterwards. |
| ModeWitness.StrandedByMode | services/core/src/socperf_thread_wrap.cpp:196-258 | A run from start-up: weak, mode switched on, weak interaction switched off; the interaction boosts, nothing waits to run, and the value of command 9101 is live. |
| WeakLive.LiveWhenDrained | services/core/src/socperf_thread_wrap.cpp:218-286 | With nothing queued, the list holds a request of the command in force, 39101 for 9101 in performance mode, for a value if and only if the interaction is weak and the command lists that value for the resource. |
| WeakLive.RaisedOnce | services/core/src/socperf_thread_wrap.cpp:460-478 | An ON pack leaves each of its values exactly once, repeated pairs included. |
| WeakLive.LoweredOnce | services/core/src/socperf_thread_wrap.cpp:487-499 | An OFF pack takes exactly its own values away. |
| WeakLive.OffEmpties | services/core/src/socperf_thread_wrap.cpp:260-286 | So an interaction's OFF pack undoes its ON pack. |
| Quiescence.DiesOut | services/core/src/socperf_thread_wrap.cpp:218-286 | Left to itself in any reachable state the service runs at most a bounded number of further tasks, however they are scheduled: self-submitted tasks die out. |
| Timers.LiveRequestsAreTimed | services/core/src/socperf_thread_wrap.cpp:379-405 | In every reachable state a live request with a duration is held by exactly one pending delayed task, as the same object, and one without is an ON. |
| Timers.NoTimedLeak | services/core/src/socperf_thread_wrap.cpp:379-405 | With no delayed task pending no timed request is live. |
| Timers.StaleTimer | services/core/src/socperf_thread_wrap.cpp:444-458 | The timer of requests that are no longer live changes nothing. |
| Timers.RenewalSurvives | services/core/src/socperf_thread_wrap.cpp:460-478 | In one list, a renewal replaces the old object by the new one; the expiry of the old object then removes nothing and that of the new one removes it. |
| Survival.LiveExactlyUntilEnded | services/core/src/socperf_thread_wrap.cpp:444-505 | A live request is still live after any operations on other objects if and only if none is a renewal or OFF of its key, its own expiry or a clear of its list. |
| Survival.LivesUntilItsTimer | services/core/src/socperf_thread_wrap.cpp:379-405 | From any reachable state a live timed request stays live through every run of the service that neither fires its own timer nor runs a renewal, OFF or clear of it, and its own timer then ends it. |
| Survival.RenewalIsTimed | services/core/src/socperf_thread_wrap.cpp:59-75 | Running a pack with a renewal makes the renewed object live with a timer of its own pending, so it lives until that timer. |
| EndTimes.EndTimesHonest | services/core/src/socperf_thread_wrap.cpp:507-545 | After any run, expiries of requests that end before a type's recorded end time change neither that candidate nor its end time. |
| LimitProtocol.LimitsAgree | services/core/src/socperf.cpp:226-282 | At every point of every run, running the queued tasks leaves for each client and resource exactly the one value its record stands for, directly or by a resolvable level, and none otherwise; both forms are never recorded at once. |
| LimitRequests.RequestRecorded | services/core/src/socperf.cpp:284-311 | After a whole request a known resource has on record what the last tag that names it asks for, as a value or as a level, and nothing if that is a reset. |
| LimitRequests.RequestSpares | services/core/src/socperf.cpp:284-311 | The records of other clients, and of resources that no tag names, stay as they were. |
| LimitRequests.TagPosts | services/core/src/socperf.cpp:226-282 | One tag posts the withdrawal of the value and of the level on record, then the new limit unless it is a reset: untimed, without end, on the client's list and under its command id. |
| LimitProtocol.SetLimitsOk | services/core/src/socperf.cpp:284-311 | A whole request keeps record and queue in agreement for every client. |
| LimitRequests.RecordedIsLive | services/core/src/socperf.cpp:226-282 | With nothing queued the power list holds for command ids -1 and -2 exactly what power and battery clients have on record, and the thermal and performance-level lists for -1 exactly what theirs have. |
| LimitRequests.FrontIsService | services/core/src/socperf.cpp:226-311 | Every run of the front end is a run of the service, so the theorems about the service hold of it. |
| LimitRequests.RecordedIsHonoured | services/core/src/socperf_thread_wrap.cpp:564-683 | With its switch on, nothing queued and no performance level live, a resource that is not a min member gets at most any recorded power or battery limit, and at most any recorded thermal limit. |
| LimitProtocol.SetLimitOk | services/core/src/socperf.cpp:259-282 | Withdrawing both forms and filing the new one keeps record and queue in agreement for every client. |
| Channels.StepChannel | services/core/src/socperf_thread_wrap.cpp:444-505 | What a task does to the untimed requests of one command does not depend on when the queue runs it. |
| Levels.GetResValueByLevel | services/core/src/socperf_thread_wrap.cpp:407-430 | Fails exactly for an unknown resource, no available values or a negative level; otherwise gives the value with min(L, n - 1) available values above it. |
| Levels.LevelAntitone | services/core/src/socperf_thread_wrap.cpp:407-430 | A higher level never resolves to a higher value. |
| Levels.LevelUnique | services/core/src/socperf_thread_wrap.cpp:366-377 | A level has one value, so a level limit and its withdrawal resolve alike. |
| Levels.AscendingRank | services/core/src/socperf_thread_wrap.cpp:417-428 | The value at a place of the ordered listing has exactly the values after it above it. |
| Requests.Nearest | services/core/src/socperf.cpp:361-371 | The thermal action with the greatest level not above the present one, the last on ties; none exactly if all levels are above it. |
| Requests.RequestItemsGood | services/core/src/socperf.cpp:387-423 | Every item of a request is a valid request for a known resource at its own fresh address, of the request's event and command, and an untimed one is ON or OFF. |
| Requests.FirstIsOwn | services/core/src/socperf.cpp:348-353 | A thermal item never comes before the first perf item. |
| Requests.OffMatchesOn | services/core/src/socperf.cpp:387-423 | The OFF request of a command matches its ON request item by item if both levels choose the same thermal pairs for every action, however far apart they are made. |
| OffRequests.ActionMatchesExactly | services/core/src/socperf.cpp:392-419 | The OFF items of one action match its ON items if and only if no thermal item can follow or both levels choose the same thermal pairs. |
| OffRequests.OneThermalMatchesExactly | services/core/src/socperf.cpp:387-423 | With one thermal action in a request, OFF matches ON if and only if the request has no item by then or both levels choose the same thermal pairs. |
| OffRequests.RequestItemsAsk | services/core/src/socperf.cpp:387-423 | A request asks for exactly the valid pairs of its actions and, from its first item on, those of their thermal actions, each with the action's duration. |
| RequestMeaning.RequestAsksFor | services/core/src/socperf.cpp:348-423 | A request asks for a value exactly if an action lists it for a known resource, on the request's own list, or its thermal action of the greatest level not above the present one does, on the perf-level list and once the request has a value of its own; each for the action's duration. |
| RequestMeaning.ItemsLast | services/core/src/socperf.cpp:387-423 | Every item, thermal items included, ends its duration after the call, or never if the duration is 0; it has a fresh address, the call's event and command, and the interaction flag exactly if it is a perf item of an interactive command. |
| RequestMeaning.RequestTimers | services/core/src/socperf_thread_wrap.cpp:379-405 | Posting a request adds its pack and, for each timed item, exactly one delayed task that holds it, due 1000 times its duration later; every new delayed task holds some timed item. |
| OffRequests.LeftLive | services/core/src/socperf.cpp:387-423 | After the ON pack of a request, any operations of other commands and the OFF pack, a value of the command is live if and only if it was live before or the ON asked for it, and the OFF did not. |
| OffRequests.TakenBackExactly | services/core/src/socperf.cpp:348-423 | From a state without the command, ON, any operations of other commands and OFF leave nothing of it live if and only if the OFF brings every thermal pair the ON brought. |
| Witnesses.OffMissesOn | services/core/src/socperf.cpp:348-385 | In a well-formed service the level rises between ON and OFF; both are run to the end, nothing waits to run, and the thermal request of the ON is still live. |
| FrontEnd.RequestAsked | services/core/src/socperf.cpp:387-423 | Posting a built chain with its expiries is a possible event of the service, and that event's effect. |
| RequestChain.ReadChain | services/core/src/socperf_thread_wrap.cpp:64-71 | The walk over the chain ends and sees exactly its items in order. |
| Throttle.OnVerdict | services/core/src/socperf.cpp:598-621 | An ON is let through if and only if every earlier ON of the command that was let through is more than 8 ms ago. |
| Throttle.OffVerdict | services/core/src/socperf.cpp:598-621 | An OFF is let through if and only if every earlier accepted OFF of the command is more than 8 ms ago or was followed by an ON attempt. |
| Throttle.OnVerdictAnyClock | services/core/src/socperf.cpp:598-621 | Without any assumption on the clock an ON is let through if and only if none was before, or the clock reads less than at the last one, or more than 8 ms more. |
| Throttle.FirstOffVerdict | services/core/src/socperf.cpp:603-619 | The first OFF after any ON attempt, accepted or not, is let through if and only if the clock reads more than 8 ms. |
| LruCache.SocPerfLRUCache.Get | common/include/socperf_lru_cache.h:34-42 | Answers what the list holds for the key and brings a found key to the front; list and index keep agreeing. |
| LruCache.SocPerfLRUCache.Put | common/include/socperf_lru_cache.h:43-61 | Stores the value at the front, replacing, overwriting in place or pushing the last entry out of a full cache; list and index keep agreeing. |
| LruCache.IndexFinds | common/include/socperf_lru_cache.h:34-61 | With distinct keys and an index of its own nodes, the index finds exactly what a search of the list finds. |
| CacheRuns.FoundIsLastPut | common/include/socperf_lru_cache.h:34-61 | After any run a key that is found has the value last put under it. |
| CacheRuns.RunKept | common/include/socperf_lru_cache.h:34-61 | Every run keeps the keys distinct, the size within capacity and each value the last one put. |
| CacheRuns.LeastRecentlyUsedGoes | common/include/socperf_lru_cache.h:34-61 | In every run of gets and puts the keys stand in the order of their last use, and a key that was pushed out was used before every key that is there, of which there are then as many as the capacity. |
| CacheRuns.HoldsMostRecent | services/server/src/socperf_server.cpp:198-202 | Under get-else-put the cache holds exactly the most recently accessed distinct keys up to its capacity, most recent first. |
| CacheRuns.RecentIsByRecency | services/server/src/socperf_server.cpp:198-202 | The reference list has exactly the accessed keys, ordered by last access. |
| CacheRuns.SmallerIsPrefix | services/server/src/socperf_server.cpp:198-202 | A smaller cache always holds a prefix of what a larger one holds. |
| CacheRuns.RemembersVerdicts | services/server/src/socperf_server.cpp:198-202 | If verdicts never change every remembered verdict is right. |
| CacheRuns.HasPerfPermission | services/server/src/socperf_server.cpp:185-214 | Refuses applications that are not system applications without touching the cache; otherwise grants on verdict 0, taken from the cache if present and else computed and put. |
| Split.SplitEx | services/core/include/socperf_common.h:350-366 | The index-jumping loop ends and yields the pieces of the string. |
| Split.JoinOfPieces | services/core/include/socperf_common.h:350-366 | Joining the pieces restores the string, no piece contains the delimiter, and there is one piece more than delimiters. |
| Split.PiecesOfJoin | services/core/include/socperf_common.h:350-366 | Splitting what delimiter-free strings were joined to gives them back. |
| Split.IsNumber | services/core/include/socperf_common.h:321-332 | True exactly for digits, perhaps after one leading minus sign; the empty string counts. |
| ModeTable.ModeActions.ParseModeCmd | services/core/src/socperf_config.cpp:696-730 | Mode names stay unique and in place, entries are only added for modes the string names, and each mode then has the last valid entry of the string or what it had before. |
| ModeTable.TableMeans | services/core/src/socperf_config.cpp:696-730 | After a string is read the table has for a mode the number of the last piece "mode=number" between bars that names it, and what it had before if none does. |
| ModeTable.UpdatedSet | services/core/src/socperf_config.cpp:719-725 | Overwriting the entry of a mode that is there keeps the table up to date. |
| ModeTable.UpdatedAdd | services/core/src/socperf_config.cpp:726-728 | So does adding an entry for a mode that is not. |
| Arbiter.SocPerfThreadWrap.InitResourceNodeInfo | services/core/src/socperf_thread_wrap.cpp:42-57 | Start-up creates one status per resource, reports the defaults, and ends in the state every run starts from. |
| Arbiter.SocPerfThreadWrap.CreateStatuses | services/core/include/socperf_common.h:253-271 | Every status object starts with empty lists, absent candidates and defaults, and is its resource's own. |
| Arbiter.SocPerfThreadWrap.InitResStatus | services/core/src/socperf_thread_wrap.cpp:154-181 | The first report tells each receiver the default of each of its resources. |
| Arbiter.SocPerfThreadWrap.ArbitratePairRes | services/core/src/socperf_thread_wrap.cpp:631-683 | The branches over candidate order and the limit flag give both members their coupled values. |
| Arbiter.SocPerfThreadWrap.ProcessLimitCase | services/core/src/socperf_thread_wrap.cpp:564-595 | The candidate is the table's value and the end time the least of three. |
| Arbiter.SocPerfThreadWrap.ArbitratePairResInPerfLvl | services/core/src/socperf_thread_wrap.cpp:597-629 | Overrides and couples if the resource or its partner has a performance level, or the resource has no partner; otherwise changes nothing and says so. |
| Arbiter.SocPerfThreadWrap.ExistNoCandidate | services/core/src/socperf_thread_wrap.cpp:700-714 | True exactly if no type has a candidate, and then the resource is arbitrated to its default. |
| Arbiter.SocPerfThreadWrap.ArbitrateCandidate | services/core/src/socperf_thread_wrap.cpp:547-562 | The three stages together are one arbitration step. |
| Arbiter.SocPerfThreadWrap.InnerArbitrateCandidatesValue | services/core/src/socperf_thread_wrap.cpp:525-545 | One pass computes the winning value of a list and the latest end time among its winners. |
| Arbiter.SocPerfThreadWrap.UpdateCandidatesValue | services/core/src/socperf_thread_wrap.cpp:507-523 | Recomputes one type and re-arbitrates only if its candidate or end time moved. |
| Arbiter.SocPerfThreadWrap.HandleResAction | services/core/src/socperf_thread_wrap.cpp:460-478 | Replaces the TotalSame entry if there is one, appends the request and counts it. |
| Arbiter.SocPerfThreadWrap.UpdateResActionListByInstantMsg | services/core/src/socperf_thread_wrap.cpp:480-505 | Files ON and untagged requests, withdraws the first matching ON entry for an OFF, and keeps all caches in order. |
| Arbiter.SocPerfThreadWrap.UpdateResActionListByDelayedMsg | services/core/src/socperf_thread_wrap.cpp:444-458 | Removes the very object of the expiry if it is live, and nothing otherwise. |
| Arbiter.SocPerfThreadWrap.RunPack | services/core/src/socperf_thread_wrap.cpp:64-71 | A pack is the fold of single updates over its items, unknown resources passed over. |
| Arbiter.SocPerfThreadWrap.RunPowerSwitch | services/core/src/socperf_thread_wrap.cpp:79-88 | Sets the switch and arbitrates every resource once, in some order. |
| Arbiter.SocPerfThreadWrap.RunThermalSwitch | services/core/src/socperf_thread_wrap.cpp:94-103 | The same for the thermal switch. |
| Arbiter.SocPerfThreadWrap.RunClear | services/core/src/socperf_thread_wrap.cpp:132-141 | Empties every perf list, updates every candidate and leaves the counter alone. |
| Arbiter.SocPerfThreadWrap.DoFreqAction | services/core/src/socperf_thread_wrap.cpp:146-152 | A limit given as a value is filed if its resource is known. |
| Arbiter.SocPerfThreadWrap.DoFreqActionLevel | services/core/src/socperf_thread_wrap.cpp:366-377 | A limit given as a level is filed as the value it resolves to, or dropped. |
| Arbiter.SocPerfThreadWrap.LookUp | services/core/src/socperf_thread_wrap.cpp:119 | Looking up a level id adds a null entry to the map, and nothing else; no status changes. |
| Arbiter.SocPerfThreadWrap.CollectChanges | services/core/src/socperf_thread_wrap.cpp:288-320 | Reports exactly what changed since the last report, passes over null entries without looking into them, and remembers the present values as sent. |
| Arbiter.SocPerfThreadWrap.SendResStatus | services/core/src/socperf_thread_wrap.cpp:288-327 | Sends both partial reports and then lets the automaton look at the counter. |
| Arbiter.SocPerfThreadWrap.WeakInteractionLoop | services/core/src/socperf_thread_wrap.cpp:218-258 | The loop over the interactions is the fold of the automaton's turns. |
| Arbiter.SocPerfThreadWrap.DoWeakInteraction | services/core/src/socperf_thread_wrap.cpp:260-286 | Builds and posts a weak command as one pack, or nothing if it names no known resource. |
| Arbiter.SocPerfThreadWrap.DoFreqActionPack | services/core/src/socperf_thread_wrap.cpp:59-75 | Submits the chain's items as one pack unless the chain is empty. |
| Arbiter.SocPerfThreadWrap.PostDelayTask | services/core/src/socperf_thread_wrap.cpp:379-405 | Submits one delayed task per distinct non-zero duration, holding the items of that duration in chain order. |
| Arbiter.SocPerfThreadWrap.Execute | services/core/src/socperf_thread_wrap.cpp:59-144 | The body of every kind of task computes that task's step of the whole state. |
| Arbiter.SocPerfThreadWrap.RunNextTask | services/core/src/socperf_thread_wrap.cpp:42-144 | Running the next queued task is the corresponding event of the service. |
| Arbiter.SocPerfThreadWrap.FireTimer | services/core/src/socperf_thread_wrap.cpp:379-405 | Running a delayed task that is due is the corresponding event of the service. |
| Arbiter.SocPerfThreadWrap.SetThermalLevel | services/core/src/socperf.cpp:344-345 | Stores the level and changes nothing else. |
| FrontEnd.SocPerf.BuildChain | services/core/src/socperf.cpp:389-420 | The linked chain is acyclic and says, in order, each action's valid pairs followed, once it has an item, by those of the nearest thermal action. |
| FrontEnd.SocPerf.DoPerfRequestThremalLvl | services/core/src/socperf.cpp:348-385 | Appends the nearest thermal action's valid pairs to a non-empty chain and leaves an empty one alone. |
| FrontEnd.SocPerf.DoFreqActions | services/core/src/socperf.cpp:387-423 | A request that yields items is the service's request event; one that yields none changes nothing. |
| FrontEnd.SocPerf.CheckTimeInterval | services/core/src/socperf.cpp:598-621 | Decides and records as the throttle does, with unsigned 64-bit time differences. |
| FrontEnd.SocPerf.SendLimitRequestEventOff | services/core/src/socperf.cpp:226-242 | Posts the withdrawal of what is recorded under the key and forgets it. |
| FrontEnd.SocPerf.SendLimitRequestEventOn | services/core/src/socperf.cpp:244-257 | Posts and records a value unless it is a reset. |
| FrontEnd.SocPerf.SendLimitRequestEvent | services/core/src/socperf.cpp:259-282 | Withdraws both forms of the old limit, then files the new one, for known resources only. |
| FrontEnd.SocPerf.LimitRequest | services/core/src/socperf.cpp:284-311 | Applies each tag in turn; lists of different lengths or an unknown client change nothing. |

## Left out

- XML configuration files: parsing, tag checks and file discovery; the model starts from a loaded configuration.
- Report functions behind `dlopen`, the executor's JSON message, event records, traces and logs: the two receivers are sequences of reports.
- Report vectors: the receivers get maps from resource to value and end time, so the order of entries within one report is not modelled.
- The interprocess client and server, access-token lookups, dumps and death recipients. The permission check is modelled with the token library's answers as parameters.
- Device modes: which command and which configuration a mode selects; a request is modelled from the command it resolved to, and `atoi` is a parameter of the mode-table parser.
- Daily statistics and command counters.
- The enable flags, the union of the power and battery switches, and the entry points that only submit a task: single branches in front of `Arbiter.SocPerfThreadWrap.PostTask`.
- Request chains are read off when a pack is submitted, not when it runs; nothing changes a chain in between.
- Shared request objects are values with an address, not heap objects; the one field written after creation, the resolved value of a level limit, is written before the object is filed.
- The per-client maps of recorded limits are one map keyed by client and resource.
- Integer widths: values, end times and counters are unbounded within the stated ranges; only the throttle's unsigned difference wraps. Overflow of a command id plus the cancel prefix is not modelled.
- Data races between request threads and the queue: each is an atomic step.
- Negative durations, values equal to the sentinels, asymmetric pairs, limits beyond int32, delimiters of several characters and a cache of capacity 0 are outside the model.
- Counter.BoostConserved: needs the interaction flag to be a function of the command; `InstantConserves` says exactly when one request keeps the count without it.
- LimitProtocol.LimitsAgree: assumes that other requests use non-negative command ids, because the limit clients use -1 and -2. The loader does not ensure this: it admits any number as a command id (services/core/src/socperf_config.cpp:934).
- WeakLive.LiveExactlyWhenWeak: no clear of the interaction's list and no other user of its type and command; the performance mode stays as it is, because otherwise it is false (`ModeStrands`).
- WeakLive.ModeStrands: follows one switch of the mode, made while nothing waits to run, until the next.
- Undo.RequestUndone: one item and level zero only; `ChainUndo.ChainTakenBack` has neither condition, but compares applied values only where nothing is out of date, because others depend on when the level was last looked at.
- Staleness.StaleExactly: a paired resource's applied value is covered for a max member with a limit switch on (`StaleWhenLimited`) and for both members while their candidates are up to date (`PairStaleExactly`); where a candidate is out of date it may still agree by coincidence, and is only related to the recorded levels by `IncrementalIsFromScratch`.
- OffRequests.LeftLive: the operations in between exclude clears of perf lists and requests and expiries of the command itself.
