# Verified model of rtest

rtest replaces the entities of rclcpp by mocks, so that ROS 2 nodes can be tested deterministically.
This project models the parts of it that carry state, loops and arithmetic, and proves what they
guarantee:

- **Simulated time** (`Timers`, `TestClock`, `ClockTheorems`, `ClockRuns`, `ClockHistory`). The triggering test clock
  advances in steps of the smallest timer period and makes one firing pass after each step. It is
  proved that every timer nevertheless gets exactly the calls of an ideal periodic timer, whatever the
  other timers are and however an advance is split. The condition is only that the timer is not overdue
  when the advance starts, and it is shown to be exact; over whole runs, with resets of the clock to arbitrary
  values, it is that the timer was not born overdue.
- **The static registry** (`Options`, `Registry`, `RegistryHistory`, `Lifetimes`, `LifetimeTheorems`,
  `MockTheorems`, `CrossNode`, `LifetimeHistory`, `SlotHistory`, `MockHistory`, `Entities`). Nested maps of weak references, timer lists, the queues of
  deferred action registrations and the mock table keyed by raw address, over all runs of construction,
  adoption, destruction, lookup, find, mock destruction, publication and reset. Identities are never
  reused; addresses are.
- **The move-robot action server** (`Motion`, `ActionServer`, `GoalMachine`, `GoalHistory`). The straight path
  of the motion with an exact number of moves, agreement of the threaded loop with the single-step interface, and the
  goal state machine under every interleaving of its threads.
- **Debounce and pending requests** (`Debounce`, `PendingRequests`, `ServiceCalls`, `CallHistory`). Optimality of the
  greedy debounce filter, age-based pruning in any iteration order, and blocking service calls
  interleaved with responses, timeouts and pruning.

The `...History` modules read the outcome of a run back from its events: whatever an object, a timer
list, a slot, a mock, a goal or a call is at the end, they say which events of the run made it so, in both
directions. `Histories` has the induction that they share.

What the code mutates in place is modelled by classes and methods with loops
(`StaticMocksRegistry`, `TriggeringTestClock`, `Server`, `DebounceNode`, `PendingMap`,
`ServiceClient`, and the methods of `Entities`). Each method is proved against a function, and the
theorems are about that function and its runs. `dafny verify dfyconfig.toml` checks everything.

## How the outside is modelled

- An rcl timer is a period and the instant of its next call; it is ready when that instant is not after
  the clock, and a call moves it on by one period, skipping whole periods while it is behind. The
  skipping never happens for a timer that is not overdue (`ClockTheorems.StepKeepsPhase`).
- `lock()` on a weak reference is membership in a set of expired identities. Deferred registration
  throws exactly while no shared_ptr holds the object, as `shared_from_this` does.
- Floats of the action server are reals. A square root is a number with the right square
  (`Motion.IsDistance`); there is at most one, and only the first of a goal has to be given.
- An unordered map is visited in an arbitrary order (`:|` in `PendingMap.Prune`).
- Clock readings, cancel schedules, the outcomes of waits and the iteration order are parameters.

## Where the code promises less than one might expect

- `resetClock` sets the override and not the counter (rtest/include/rtest/test_clock.hpp:112-117). A timer
  created afterwards may be born overdue for the counter, and its first call then serves a deadline that lies
  before its birth: `ClockRuns.ResetMakesLate` is such a run, `ClockRuns.ExactSinceBirthIff` says exactly which
  timers of which runs are concerned, and `ClockTheorems.OverrideAgreesIff` when override and counter agree again.
- With an overdue timer it can be observed how an advance is split; `ClockTheorems.SplitUnseenIff` has the exact
  condition.
- A period of zero passes the check of timer creation and makes the advance loop endless
  (`ClockRuns.ZeroPeriodIsAdmitted`, `ClockRuns.LoopEndsIff`).
- The find functions for service clients and action clients do not check the requested type
  (`MockTheorems.FindAttachesIff`).
- A mock that outlives its entity captures the next object at the same address
  (`MockTheorems.OutlivingMockCapturesSuccessor`).
- A lookup of an action entity runs the deferred registrations of all nodes. Whatever event comes next,
  `CrossNode.ForeignLookupInEveryRun` says exactly when another node's own lookup after that event has a different
  result than without the first lookup: a death and an adoption can reveal it (`CrossNode.DeathReveals`,
  `CrossNode.AdoptionReveals`), no other event can.
- Two goals can run at once if a second one is approved before the first is accepted; `GoalMachine.GoodStepIff`
  says that nothing else breaks the state machine and that this always can. After such a race a goal that
  meets its loop condition with is_moving_ cleared never gets a result (`GoalHistory.ClearedFlagLosesTheGoal`).

## Model

| member | source | states |
|---|---|---|
| TestClock.TriggeringTestClock.Advance | rtest/include/rtest/test_clock.hpp:149-173 | the advance loop over the timers found in the registry computes `Advanced`, for every duration |
| TestClock.TriggeringTestClock.AdvanceInSteps | rtest/include/rtest/test_clock.hpp:161-169 | the while loop computes `Steps`: steps of min(smallest period, remaining), one firing pass each |
| TestClock.TriggeringTestClock.GetTimersMinPeriod | rtest/include/rtest/test_clock.hpp:178-190 | the loop computes the minimum of the periods, from the largest 64-bit value down |
| TestClock.MinPeriodPositive | rtest/include/rtest/test_clock.hpp:178-190 | the computed minimum is positive, not above any period, and one of them unless it is the initial value |
| TestClock.TriggeringTestClock.FireAllTimerCallbacks | rtest/include/rtest/test_clock.hpp:192-203 | the firing loop calls the ready timers in list order, once each, and logs the calls |
| TestClock.TriggeringTestClock.AdvanceClock | rtest/include/rtest/test_clock.hpp:98-108 | counter and override move together |
| TestClock.TriggeringTestClock.ResetClock | rtest/include/rtest/test_clock.hpp:112-117 | only the override changes |
| ClockTheorems.StepKeepsPhase | rtest/include/rtest/test_clock.hpp:162-169 | after every step a timer is again not overdue (and within one period if it was), it was due at most once, and no period was skipped |
| ClockTheorems.AdvanceExact | rtest/include/rtest/test_clock.hpp:149-203 | an advance serves a timer exactly the grid next, next + p, ... up to now + d, independently of all other timers |
| ClockTheorems.FiringCount | rtest/include/rtest/test_clock.hpp:149-203 | the number of calls is floor((now + d - next) / p) + 1 or 0, and each call's deadline is given |
| ClockTheorems.ExactIffNotOverdue | rtest/include/rtest/test_clock.hpp:149-203 | for d > 0 the calls are the grid points in (now, now + d] if and only if the timer is not overdue at the start |
| ClockTheorems.AdvanceFrame | rtest/include/rtest/test_clock.hpp:156-169 | timers outside the list keep their state and are not called |
| ClockTheorems.SplitAdvance | rtest/include/rtest/test_clock.hpp:150-173 | advance(a); advance(b) ends with the clock, the timers and the calls per timer of advance(a + b) |
| ClockTheorems.SplitInstantsMayDiffer | rtest/include/rtest/test_clock.hpp:161-169 | the instants at which callbacks run can differ between the two |
| ClockTheorems.SplitUnseenIff | rtest/include/rtest/test_clock.hpp:150-173 | for any list of timers, all splits of all advances are unobservable if and only if the smallest period is one nanosecond, or each timer is not overdue or catches up beyond now + smallest period with its first call |
| ClockTheorems.AdvanceInOrder | rtest/include/rtest/test_clock.hpp:159-169 | the new calls run inside the advance and are strictly sorted by (time, list order) |
| ClockTheorems.AdvancePromptIff | rtest/include/rtest/test_clock.hpp:159-169 | all callbacks run at T with D <= T < D + smallest period if and only if every next call is later than one such period before the end of the first step, as it is for timers not overdue |
| ClockTheorems.InstantsShape | rtest/include/rtest/test_clock.hpp:161-167 | there are ceil(d / m) steps, the i-th ends at now + min((i + 1) * m, d), the last at now + d |
| ClockTheorems.TimeIsConserved | rtest/include/rtest/test_clock.hpp:98-108 | the loop sets the override to exactly those instants and the counter to now + d |
| ClockTheorems.AdvanceConservesTime | rtest/include/rtest/test_clock.hpp:98-108 | every value the clock is set to lies in [now, now + d], so 64 bits suffice if both ends fit |
| ClockTheorems.OverrideAgreesIff | rtest/include/rtest/test_clock.hpp:112-117 | after an advance override and counter agree if and only if the clock was moved or they agreed before |
| Timers.CatchUpIsFirst | rtest/include/rtest/test_clock.hpp:192-203 | a call that skips periods ends at the first point of the timer's grid that is not behind the clock |
| ClockRuns.SafeCastIsExact | rtest/include/rtest/create_timer_mock.hpp:48-72 | the period cast never wraps, its overflow error is unreachable, and the accepted durations are characterised |
| ClockRuns.ZeroPeriodIsAdmitted | rtest/include/rtest/create_timer_mock.hpp:52-54 | a period of zero passes the period cast in every unit of up to the largest 64-bit count of nanoseconds |
| ClockRuns.LoopEndsIff | rtest/include/rtest/test_clock.hpp:157-169 | for any list of periods that the cast admits, the loop with their minimum as its step reaches its target if and only if d <= 0 or no period is zero |
| ClockRuns.ElapsedIsTheLoop | rtest/include/rtest/test_clock.hpp:161-169 | for positive periods that loop variable is the one of the modelled advance: each value the clock is set to, and the end |
| ClockRuns.EveryRunIsIdeal | rtest/include/rtest/test_clock.hpp:129-207 | over every run of creation, drop, registry reset, clock reset to any value and advance, each timer the node still has and that was not born overdue was called exactly at the multiples of its period since its birth, and no timer of another node was called |
| ClockRuns.ExactSinceBirthIff | rtest/include/rtest/test_clock.hpp:112-117 | over every run, a timer's calls are the grid points between the counter at its birth and now if and only if its first deadline was later than that counter, or the counter has not moved since |
| ClockRuns.ResetMakesLate | rtest/include/rtest/test_clock.hpp:112-117 | advance 100, reset to 0, create with period 10, advance 10: the call serves deadline 10, while the grid point of the window is 110 |
| ClockHistory.CounterIsTheSum | rtest/include/rtest/test_clock.hpp:98-117 | over every run the counter is the sum of the advances; resets do not move it |
| ClockHistory.TimersAreCreated | rtest/include/rtest/create_timer_mock.hpp:142-151 | over every run a timer has owner, period and birth exactly as it was created |
| ClockHistory.ListedWereCreated | rtest/include/rtest/create_timer_mock.hpp:195-205 | over every run the timers that an advance finds are exactly those created on the node and neither dropped nor cleared since |
| Registry.StaticMocksRegistry.Register | rtest/include/rtest/static_registry.hpp:517-523 | registerEntity on the nested maps, with the entries that operator[] inserts |
| Registry.StaticMocksRegistry.Get | rtest/include/rtest/static_registry.hpp:525-534 | findEntity, with the empty map that operator[] inserts for the node |
| Registry.SlotAfterRegister | rtest/include/rtest/static_registry.hpp:517-523 | a registration changes the answer of its own slot only, and only if that was empty or its holder had expired |
| Registry.StaticMocksRegistry.TryEntry | rtest/include/rtest/static_registry.hpp:385-394 | one callback: its registration is performed and its entry erased, or it throws and is stepped over |
| Registry.StaticMocksRegistry.TryLazyInit | rtest/include/rtest/static_registry.hpp:383-395 | the erase-while-iterating loop leaves exactly the entries whose callback threw, in order, and performs the registrations of the others in order |
| Registry.StaticMocksRegistry.GetAction | rtest/include/rtest/static_registry.hpp:375-403 | deferred registrations first, then the lookup |
| Registry.StaticMocksRegistry.RegisterLazyInit | rtest/include/rtest/static_registry.hpp:405-444 | appends the entry to the queue of its kind |
| Registry.StaticMocksRegistry.RegisterTimer | rtest/include/rtest/static_registry.hpp:225-229 | appends the timer to its node's list |
| Registry.StaticMocksRegistry.GetMock | rtest/include/rtest/static_registry.hpp:249-256 | the reference recorded at the address, if any |
| Registry.StaticMocksRegistry.AttachMock | rtest/include/rtest/static_registry.hpp:258-258 | records the mock at the address, replacing what was there |
| Registry.StaticMocksRegistry.DetachMock | rtest/include/rtest/static_registry.hpp:260-266 | removes whatever is recorded at the address |
| Registry.StaticMocksRegistry.Reset | rtest/include/rtest/static_registry.hpp:457-469 | empties every map and queue |
| Registry.StaticMocksRegistry.RemoveLazyInit | rtest/include/rtest/static_registry.hpp:446-455 | removes every entry with the given address |
| Registry.StaticMocksRegistry.FindTimers | rtest/include/rtest/create_timer_mock.hpp:195-205 | the loop returns the node's timers that still lock, in order |
| RegistryHistory.MapsRefineHistory | rtest/include/rtest/static_registry.hpp:158-163 | after every run a lookup answers the holder given by the flat history, so the entries inserted by lookups never matter |
| RegistryHistory.HolderExplained | rtest/include/rtest/static_registry.hpp:517-534 | an entity holds a slot if and only if one of its claims found it free, no reset followed and every later claim found it alive; a slot is empty if and only if nothing claimed it since the last reset |
| RegistryHistory.FoundTimersAreTheLiveOnes | rtest/include/rtest/static_registry.hpp:225-240 | the timers found are the in-order subsequence of those registered for the node since the last reset and not expired |
| RegistryHistory.NodeIsolation | rtest/include/rtest/static_registry.hpp:93-97 | a node's answers are those of the run from which all other nodes' registrations and deaths and all lookups are removed |
| RegistryHistory.NodeCannotObserveOthers | rtest/include/rtest/static_registry.hpp:122-134 | two runs that agree on what concerns a node answer it alike |
| Lifetimes.SlashIsOptional | rtest/include/rtest/publisher_mock.hpp:313-318 | topic and service names are found with and without the leading slash |
| Lifetimes.NamesStayApart | rtest/include/rtest/publisher_mock.hpp:313-318 | two names are registered or sought alike if and only if they are equal or differ by that one optional slash |
| LifetimeHistory.ObjectsAreConstructed | rtest/include/rtest/publisher_mock.hpp:146-159 | over every run an object is what it was constructed as |
| LifetimeHistory.LiveUntilDestroyed | rtest/include/rtest/action_client_mock.hpp:226-226 | over every run an object lives if and only if it was constructed and not destroyed since |
| LifetimeHistory.HeldUntilDestroyed | rtest/include/rtest/action_client_mock.hpp:220-232 | over every run an object is held if and only if it was adopted and not destroyed since |
| LifetimeHistory.TimersInEveryRun | rtest/include/rtest/create_timer_mock.hpp:145-151 | over every run the timers found for a node are exactly its timer objects adopted since the last reset and not destroyed |
| LifetimeHistory.TimerOrderInEveryRun | rtest/include/rtest/static_registry.hpp:225-229 | and they stand in the order of their adoption |
| LifetimeHistory.TimersAreDistinct | rtest/include/rtest/static_registry.hpp:225-240 | and none stands there twice |
| SlotHistory.HolderInEveryRun | rtest/include/rtest/static_registry.hpp:517-534 | over every run an object holds a slot if and only if its own adoption, or a lookup that met it first in the queue, gave it the free slot, and neither its destruction nor a reset followed |
| SlotHistory.WaitingInEveryRun | rtest/include/rtest/static_registry.hpp:383-455 | over every run an object waits for registration if and only if it was constructed as an action entity and has since not been destroyed, held at a lookup of its kind, or reset away |
| SlotHistory.JournalIsTrue | rtest/include/rtest/static_registry.hpp:383-395 | the journal has a callback's run if and only if a lookup of the kind met the object in its queue, with success exactly if it was held |
| LifetimeTheorems.RemovalIsByIdentity | rtest/include/rtest/static_registry.hpp:446-455 | removal by address takes out exactly the destroyed object's entry |
| LifetimeTheorems.DeferredExactlyOnce | rtest/include/rtest/action_server_mock.hpp:129-141 | over every run the queues hold distinct live objects, no callback runs after its object's destruction, none runs again after success |
| LifetimeTheorems.NothingIsLost | rtest/include/rtest/action_client_mock.hpp:220-232 | over every run without reset, a live action object waits in its queue or its callback has succeeded |
| LifetimeTheorems.LookupRegistersAllOwned | rtest/include/rtest/static_registry.hpp:375-403 | over every run without reset, a lookup leaves every held object of that kind with its callback succeeded |
| LifetimeTheorems.RegistrationsRefine | rtest/include/rtest/static_registry.hpp:383-395 | the registrations of a lookup, as history events, have the effect of the registry's loop on its maps |
| LifetimeTheorems.ForeignLookupIsUnnoticed | rtest/include/rtest/static_registry.hpp:375-403 | a lookup by another node does not change what the node's own next lookup yields |
| CrossNode.YieldIs | rtest/include/rtest/static_registry.hpp:375-403 | a lookup yields the live holder, or else the first held object waiting for the slot |
| CrossNode.ForeignLookupInEveryRun | rtest/include/rtest/static_registry.hpp:383-395 | after every run and for every next event, a foreign lookup before it changes what a node then finds if and only if it was of the same kind and the event is the death of what would have been found while another held object waited, or the adoption of an object queued before the one that the lookup registered |
| CrossNode.AdoptionReveals | rtest/include/rtest/static_registry.hpp:383-395 | a run after which an adoption reveals it |
| CrossNode.DeathReveals | rtest/include/rtest/static_registry.hpp:383-395 | a run after which a death reveals it |
| MockTheorems.HolderIsOwned | rtest/include/rtest/static_registry.hpp:517-534 | the live holder of a slot is held by a shared_ptr and is of the slot's kind, node and name |
| MockTheorems.CorrespondenceKeptIff | rtest/include/rtest/publisher_mock.hpp:71-73 | a step keeps live mocks and attached entities in correspondence if and only if it destroys no entity under its mock and does not reset under live mocks |
| MockTheorems.MocksAreOneToOne | rtest/include/rtest/static_registry.hpp:249-266 | over every disciplined run no two live mocks share an entity, and the table entry of a live object is its own mock |
| MockTheorems.FindAttachesIff | rtest/include/rtest/publisher_mock.hpp:308-340 | a find attaches a new mock if and only if the name is acceptable, the slot has a live holder of the requested type (checked for publishers, services, action servers only) and the holder has no live mock |
| MockHistory.FindAttachesTheMock | rtest/include/rtest/publisher_mock.hpp:326-331 | after every disciplined run a find that reports an attachment attaches its mock to the object that the lookup yields, and the object's next publication reaches that mock |
| MockHistory.FindSparesOthers | rtest/include/rtest/publisher_mock.hpp:327-340 | a find that reports none adds no mock, and no find touches other mocks |
| MockHistory.MocksInEveryRun | rtest/include/rtest/static_registry.hpp:249-266 | over every run a live mock is an object's mock if and only if a find attached it to that object and it was not destroyed since |
| MockHistory.DropFreesTheEntity | rtest/include/rtest/publisher_mock.hpp:73-73 | after every disciplined run a mock's destruction leaves its object without any and all other mocks in place |
| MockHistory.FindOutcomes | rtest/include/rtest/action_server_mock.hpp:198-218 | after every disciplined run, the exact conditions under which a find throws, finds nothing or warns of a mock already attached |
| MockTheorems.PublishReachesItsMock | rtest/include/rtest/publisher_mock.hpp:168-174 | a publication reaches exactly the live mock of its publisher, or nothing |
| MockTheorems.OutlivingMockCapturesSuccessor | rtest/include/rtest/publisher_mock.hpp:73-73 | a mock that outlives its entity receives what a later object at that address publishes and blocks its mocking |
| Entities.ConstructEntity | rtest/include/rtest/action_client_mock.hpp:184-224 | construction takes the registry through the run model's step |
| Entities.AdoptEntity | rtest/include/rtest/publisher_mock.hpp:146-159 | post_init_setup of the directly registered kinds, and the registration of a timer, take the registry through the step |
| Entities.DestroyEntity | rtest/include/rtest/action_client_mock.hpp:226-226 | destruction takes the registry through the step |
| Entities.LookUp | rtest/include/rtest/static_registry.hpp:375-403 | a lookup takes the registry through the step and returns what the model yields |
| Entities.FindMock | rtest/include/rtest/action_server_mock.hpp:198-218 | a find takes the registry through the step and has the model's outcome, including the throwing branches |
| Entities.DestroyMock | rtest/include/rtest/action_server_mock.hpp:186-186 | the mock destructor takes the registry through the step |
| Entities.PublishMessage | rtest/include/rtest/publisher_mock.hpp:168-174 | publish_ delivers to the live mock recorded at the publisher's address |
| Entities.CleanRegistry | rtest/include/rtest/static_registry.hpp:457-469 | reset takes the registry, its timer lists included, through the step |
| Motion.DistanceIsUnique | examples/src/action_server.cpp:162-164 | the square root that the code computes is determined by its witness |
| Motion.MoveDistance | examples/src/action_server.cpp:154-174 | the distance after any call of calculate_next_position, including overshooting and the branch below 0.001 |
| Motion.MoveShortens | examples/src/action_server.cpp:142-146 | while the target is not reached a move shortens the distance by exactly 0.01 and never takes the branch below 0.001 |
| Motion.MoveLength | examples/src/action_server.cpp:162-173 | a move is exactly 0.01 long, and below 0.001 there is none; with the distance to the target this fixes the point |
| Motion.PathIsStraight | examples/src/action_server.cpp:142-146 | after k moves the robot stands 0.01 * k from its start on the straight line to the target |
| ActionServer.ThreadedEnds | examples/src/action_server.cpp:116-150 | the loop makes at most floor((d - 0.1) / 0.01) + 1 moves, ends canceled at the first canceling check, and otherwise succeeds after exactly that many |
| ActionServer.ThreadedDistances | examples/src/action_server.cpp:128-146 | the k-th position is at distance d - 0.01 k; a success lies within 0.1 and no move comes nearer than 0.09 |
| ActionServer.ThreadedPath | examples/src/action_server.cpp:142-146 | the loop visits exactly the points of that path, consecutive ones 0.01 apart |
| ActionServer.CanceledIff | examples/src/action_server.cpp:116-140 | a goal ends canceled if and only if one of its first Moves(d) + 1 checks says so, also where the target is reached |
| ActionServer.InterfacesAgree | examples/src/action_server.cpp:85-151 | thread and single-step interface visit the same positions with the same result; the feedback is shifted by one |
| ActionServer.BoxBoundsMoves | examples/src/action_server.cpp:56-59 | inside the box no goal needs more than 2819 moves |
| ActionServer.Server.HandleGoal | examples/src/action_server.cpp:48-67 | a goal is accepted if and only if its target is in the box and the server is at rest |
| ActionServer.Server.HandleAccepted | examples/src/action_server.cpp:77-83 | stores the goal handle, sets is_moving_ and starts one thread for that handle |
| ActionServer.Server.CheckAndCompleteGoal | examples/src/action_server.cpp:210-239 | cancellation before arrival; result and is_moving_ set together |
| ActionServer.Server.ExecuteSingleStep | examples/src/action_server.cpp:85-102 | one move, then feedback for the new position with its distance |
| ActionServer.Server.StepThrough | examples/src/action_server.cpp:85-102 | check_and_complete_goal and execute_single_step in turn compute `Stepwise`: final position, feedback, result and flag |
| ActionServer.Server.ExecuteMove | examples/src/action_server.cpp:104-151 | the loop computes `Threaded` and clears is_moving_; at rest it does nothing |
| GoalMachine.GoodStepIff | examples/src/action_server.cpp:61-83 | a step keeps the goal invariant if and only if it approves no second goal beside one not yet accepted; after it two goals can come to execute at once without a further approval if and only if it does (that the square roots for the approved targets exist is a hypothesis) |
| GoalMachine.RaceReachableIff | examples/src/action_server.cpp:61-83 | from a sound state two executing goals are reachable without a further approval if and only if two are approved and not yet accepted, given the square roots for their targets |
| GoalMachine.GoalsInEveryRun | examples/src/action_server.cpp:116-150 | in every serial interleaving one goal executes at most, is_moving_ says exactly whether one does, each returned thread posted exactly one result, and every result lies on its goal's path with the moves that its verdict needs |
| GoalMachine.BoxInEveryRun | examples/src/action_server.cpp:142-146 | in every interleaving the robot stays in the box and no goal makes more than 2819 moves |
| GoalMachine.CancellationWins | examples/src/action_server.cpp:117-140 | once a cancel request precedes the cancel check, the only result the goal can get in any continuation is `canceled` |
| GoalHistory.GoalsAreRequested | examples/src/action_server.cpp:48-67 | over every run a goal is approved or executes with a target if and only if exactly that target was requested for it, in the box and at rest |
| GoalHistory.PathsBeginAtAcceptance | examples/src/action_server.cpp:77-83 | over every run a goal's path begins where the robot stood at its acceptance |
| GoalHistory.CancelsAreRequested | examples/src/action_server.cpp:69-75 | over every run a goal is canceling if and only if a cancel request for it arrived |
| GoalHistory.ResultsArePosted | examples/src/action_server.cpp:117-140 | over every run a result is there if and only if a check of its goal's thread posted it, at the position where the robot then stood |
| GoalHistory.ResultsAnswerRequests | examples/src/action_server.cpp:116-150 | in every serial interleaving a success stands at the end of the straight path from the position at acceptance to the requested target, within the tolerance; a canceled goal was asked to cancel |
| GoalHistory.OnlyMovesMove | examples/src/action_server.cpp:142-146 | only a thread about to move moves the robot, by exactly 0.01 |
| GoalHistory.CancelCondemnsIff | examples/src/action_server.cpp:117-140 | a cancel request before the verdict decides the result if and only if the thread is not between its two checks |
| GoalHistory.ClearedFlagLosesTheGoal | examples/src/action_server.cpp:116-150 | a goal that meets the loop condition with is_moving_ cleared gets no result in any continuation |
| GoalHistory.ThreadRunsTheLoop | examples/src/action_server.cpp:116-150 | a thread left alone comes to its end with the outcome and position that `Threaded` computes |
| Debounce.DebounceNode.Set | examples/include/test_composition/debounce.hpp:41-48 | one call handled, as a one-call sequence |
| Debounce.CallsCompose | examples/include/test_composition/debounce.hpp:41-48 | handling calls one by one is handling the sequence |
| Debounce.GreedyIsOptimal | examples/include/test_composition/debounce.hpp:41-48 | the accepted calls are spaced by the debounce time from the start on, and at non-decreasing times no spaced choice is longer |
| Debounce.ValueIsLastAccepted | examples/include/test_composition/debounce.hpp:50-55 | the node holds the value and time of the last accepted call |
| PendingRequests.PendingMap.Prune | rtest/include/jazzy/rtest/client_base.hpp:110-130 | in every iteration order: survivors, count, and a report that is the old one followed by each removed id once |
| PendingRequests.PruneCount | rtest/include/jazzy/rtest/client_base.hpp:118-129 | survivors and removed ids partition the map and their numbers add up |
| PendingRequests.CutoffIsExclusive | rtest/include/jazzy/rtest/client_base.hpp:120-120 | a request sent at the cutoff itself stays |
| PendingRequests.PrunesCompose | rtest/include/jazzy/rtest/client_base.hpp:119-128 | two prunes are one at the later cutoff, with nothing reported twice |
| PendingRequests.ReportsCompose | rtest/include/jazzy/rtest/client_base.hpp:121-123 | the concatenated reports list what the one prune reports |
| ServiceCalls.NoLeakedCalls | examples/src/service_client.cpp:151-179 | in every interleaving a returned call is not pending and returned once; it has the timeout message exactly as a result of its own expired wait, and otherwise its own response or the error of its dropped request |
| CallHistory.ResponsesArrived | examples/src/service_client.cpp:169-172 | over every run a future holds a response if and only if exactly that response arrived while the request was pending |
| CallHistory.BrokenWereDropped | rtest/include/jazzy/rtest/client_base.hpp:118-129 | over every run a promise is broken if and only if a prune found its request pending and stale, or its call removed it |
| CallHistory.CallsReturnWhatHappened | examples/src/service_client.cpp:158-178 | over every run a returned call returned its timeout, the response that arrived for it, or the error of the prune that dropped it, and which of them |
| CallHistory.CollectReturnsTheResponse | examples/src/service_client.cpp:166-178 | once a response arrived, or a prune dropped the request, collecting returns exactly that and the client remembers it |
| CallHistory.GivingUpReturnsTimeout | examples/src/service_client.cpp:158-164 | a call whose wait expired removes its request and returns the timeout, whatever came in the meantime |
| CallHistory.PendingWereSent | examples/src/service_client.cpp:151-156 | over every run a request is pending, with its time and value, if and only if it was sent so and nothing has settled it since |
| ServiceCalls.RequestsAreConserved | examples/src/service_client.cpp:151-202 | every request sent is pending, answered or dropped, and only one of these |
| ServiceCalls.ServiceClient.Conclude | examples/src/service_client.cpp:158-178 | the part of setStateWithTimeout after the wait, for all three outcomes |
| ServiceCalls.ServiceClient.CancelPendingRequests | examples/src/service_client.cpp:181-186 | drops everything and returns how many |
| ServiceCalls.ServiceClient.DropRequestsOlderThan | examples/src/service_client.cpp:188-202 | drops and lists exactly the requests older than the given age |

## Left out

- Timers with a period of zero: the type `Timer` has positive periods, because the advance loop does not end otherwise (`ClockRuns.LoopEndsIff`).
- Callbacks that cancel, reset or create timers during an advance, wall and steady clocks, and clock jump callbacks.
- 64-bit overflow inside rcl when a timer's next call exceeds the range; the model's integers are unbounded there.
- Constructor errors of the clocks (null node, `use_sim_time` not set) and error codes of rcl.
- Units that are not a whole number of nanoseconds and the rounding of the `double` comparison in the period cast.
- Float rounding in the action server; `rclcpp::ok()` turning false, which leaves the loop without a result and `is_moving_` set.
- In `GoalMachine` the two coordinates of a move are written in one step.
- ServiceCalls: `setState` and the callback variants of the example client, which send and remove in the same way but spin the node.
- Subscriptions beyond their registration and lookup; the remaining mock methods, which forward to gmock or are stubs.
- The mutexes: each locked section is one step.
- Logger mock, log silencing, single-instance guard, registry dump, the other distributions' copies of the pruning loop, scripts and build files.
