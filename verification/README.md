# Courier client verification

This project models the concurrent core of courier-go, the wrapper around the paho MQTT client, and proves what it
keeps. Four parts of the code carry the difficulty:

- **The Consul resolver** (`consul/resolver.go`). Two watchers, a rename and timer callbacks share one mutex and do
  their slow work outside it. `ResolverSteps` is a step relation with one step for each locked section, each firing of
  a timer and each look at `doneChan` or `updateChan`; a callback whose timer fired before `Timer.Stop` stays in
  flight, and each watcher goes on only if it found `doneChan` open. `ResolverRuns` proves one invariant of all runs,
  `ResolverTheorems` what follows for commits and wait indices, `ResolverStop` what can still be sent after `Stop`, and
  `ResolverDelivery` in which order lists arrive; `ResolverScenarios` builds the runs that serve as witnesses.
  `ConsulResolver` has the locked sections as methods of a class, each proved equal to the function its step uses, and
  `Addresses` the order-insensitive comparison that decides what is published.
- **The client's connections** (`client_resolver.go`, `client.go`, `client_pool.go`, `exec.go`). `ClientRuns` and
  `ClientTheorems` describe whole runs of address updates and stops over the visible part of the client: conservation
  of connections, agreement of the two views of the connections, distinct client ids, availability, and when a pick
  can panic. `CourierClient.Client` is the class whose methods perform those steps, with ghost histories of what was
  built, handed to `Disconnect`, installed and seen open. `ClientUpdates` and `ConnectionStates` hold its parts.
- **Subscriptions** (`client_subscribe.go`, `client_unsubscribe.go`). `Subscriptions` is the state of one connection
  with the list of calls made on it, `Fanout` relates the calls on all connections before and after an operation, up
  to the effect of resuming the registry. `CallOptions` and `Errors` are the loops and folds they need.
- **Counters and loops** (`exec.go`, `exp_starter.go`, `utils.go`). `Tickets` treats the load and the add of
  `atomicCounter.next` as separate steps; `Loops` folds a step function over arbitrary schedules for both
  token-passing loops and proves the loops equal to the folds.

Connections are numbered in the order they were built. Broker answers, connection attempts, the order of goroutines and
of map iterations are arbitrary choices, so every statement holds for all of them.

## Where the code falls short of a plausible promise

Each of these is a proved statement: the exact condition under which the promise holds, and where that condition is
about states, runs or inputs in which it fails.

- A list can still be sent after `Stop`, although a test is named `NoPublishAfterStop`. Until `updateChan` is closed it
  can happen exactly if a goroutine is in its select; or a callback is past its check of `doneChan` and has a list to
  commit, or one that a watcher past its own check, or `Start`, can still schedule; or, without debouncing, such a
  watcher or `Start` alone (`SendAfterStopIff`, `SendAfterStopHappens`).
- A late callback can find `updateChan` closed and panic, exactly if debouncing is on (`SendMayPanicIff`).
- A callback that waits for the lock commits whatever list is pending then, so a list can be published without a
  debounce period of its own (`CommitWithoutItsPeriod`). Without such a callback it always waits its full period
  (`CommitsAfterFullPeriod`).
- The last list received can be one that a later commit replaced, because sends happen outside the lock
  (`StaleListCanArriveLast`). Lists arrive in order exactly if no commit overtakes another in the select
  (`SentInOrderIff`, `DeliveryInOrderIff`), which holds whenever senders do not overlap and always without debouncing
  (`SeparateSendersKeepOrder`, `WithoutDebounceInOrder`).
- `NewClient` accepts configurations under which a publish or a plain subscribe finds no connection to pick and panics:
  a fixed address in multi-connection mode, or a pool with a resolver (`SelectionIsSafeIff`). Apart from that a publish
  panics for most tickets from 2^63 on (`PickForPublish`, `PickInRangeIff`).
- An update between the two locked sections of `stop` leaks the generation it installs (`UpdateDuringStopConservesIff`,
  `StopLosesConnection`).
- After an update that installed nothing the next one builds connections with the same client ids
  (`NextUpdateReusesIdIff`, `IdsAreReused`); installed connections never share one.
- An update that finds no open connection resumes on the old generation and subscribes every normal topic again,
  possibly on another connection (`ResumingAgainIsHarmlessIff`, `NormalTopicOnTwo`).
- `SubscribeMultiple` does not record shared topics, so a later `Subscribe` calls the broker again
  (`MultipleIsNotRemembered`).
- A retry interval can turn negative for a cap of 2^62 nanoseconds or more (`WaitsArePositiveIff`).
- A multierror without elements counts as success in a fan-out (`ReduceIsNilIff`).
- In multi-connection mode a client built for a fixed address is never handed to `Disconnect`
  (`ConnectionsAreConserved`, second clause).

## Model

| member | source | states |
|---|---|---|
| Addresses.AreAddressesEqual | consul/resolver.go:415-438 | the comparison is multiset equality for all lists, though only the first list's counts are compared |
| Addresses.SameCountsAndSize | consul/resolver.go:431-437 | equal sizes and equal counts on one side leave no room for extra addresses on the other |
| Addresses.ConvertToTCPAddresses | consul/resolver.go:512-528 | one address per entry, with the node's host for a missing one and the port modulo 2^16 |
| ConsulResolver.Resolver.constructor | consul/resolver.go:77-110 | a zero debounce period becomes the default; everything else starts empty |
| ConsulResolver.Resolver.Rename | consul/resolver.go:278-287 | a new non-empty name becomes the service's and resets the wait index; any other leaves both as they were |
| ConsulResolver.Resolver.DiscoverSnapshot | consul/resolver.go:316-322 | the query asks for the current service and its index |
| ConsulResolver.Resolver.DiscoverAccept | consul/resolver.go:335-349 | an answer for the current service sets the wait index to its own and yields its addresses; any other changes nothing |
| ConsulResolver.Resolver.ScheduleAddressUpdate | consul/resolver.go:358-381 | the old timer is stopped in every case; a list that is not new clears the pending one, a new one is committed here without debouncing and otherwise pends with a timer of its own |
| ConsulResolver.Resolver.StopDebounceTimer | consul/resolver.go:202-210 | only an armed timer is affected |
| ConsulResolver.Resolver.CommitPending | consul/resolver.go:388-401 | the pending list becomes the last one and is returned once |
| ResolverTheorems.DebounceConverges | consul/resolver.go:358-404 | before Stop the latest list is committed, or pending with its timer armed or a callback in flight that has yet to commit |
| ResolverTheorems.QuiescenceMeansLatest | consul/resolver.go:358-404 | with no timer armed and no callback left to commit, the committed list is the latest one |
| ResolverTheorems.PendingCanBeCommitted | consul/resolver.go:381-401 | from every reachable state with a pending list, at most three timer and callback steps commit it |
| ResolverTheorems.EveryRunIsLawful | consul/resolver.go:358-413 | in every run each commit is the latest list, differs from the one before, and is made by a timer that fired; a timer fires only if no list was scheduled since it was armed; sends and drops happen once, drops only after the close; queries carry the name and index in force |
| ResolverTheorems.ConsecutiveCommitsDiffer | consul/resolver.go:367-371 | two commits in a row are different multisets |
| ResolverTheorems.EveryCommitIsAccountedFor | consul/resolver.go:406-413 | a commit is sent once, or dropped once, or held by exactly one goroutine |
| ResolverTheorems.WaitIndexBelongsToService | consul/resolver.go:313-350 | through any renames a wait index other than zero was answered for the service it is used with |
| ResolverTheorems.NamesFollowTheTrace | consul/resolver.go:278-343 | in every reachable state the service is the one last renamed to and the wait index that of its last answer, zero without one, and every query ever made carried the two of its moment |
| ResolverTheorems.CommitsAfterFullPeriod | consul/resolver.go:358-404 | in every run a list is committed by a timer armed after it was scheduled, or by a callback that had fired before |
| ResolverScenarios.CommitWithoutItsPeriod | consul/resolver.go:381-401 | for any two lists there is a run in which the second is committed right after it was scheduled, by the first one's callback, while its own timer runs |
| ResolverTheorems.ScheduleRestartsTimer | consul/resolver.go:362-381 | no timer armed before a schedule is armed after it, and a list left pending waits for one timer, created by that schedule |
| ResolverTheorems.RenameTakesEffect | consul/resolver.go:492-506 | the new name and a zero index are in the fields, and the watcher goes on to discover exactly if the service was renamed |
| ResolverTheorems.AnswerTakesEffect | consul/resolver.go:335-349 | an answer for the current service is scheduled with its index stored; any other is dropped |
| ResolverTheorems.KvWatcherAsksAfterRename | consul/resolver.go:441-510 | in every reachable state the watcher of the key is inside discover only if the key has named a service |
| ResolverTheorems.StopDisarms | consul/resolver.go:202-210 | after Stop's locked section no timer is armed, in any reachable state |
| ResolverStop.WatchersEndOnlyAfterStop | consul/resolver.go:212-246 | in every reachable state before the close both watchers go on and updateChan is open; it is closed only after both have ended |
| ResolverTheorems.WithoutDebounceAlwaysLatest | consul/resolver.go:373-378 | without a debounce period the last list is always the latest one |
| ResolverStop.SendAfterStopIff | consul/resolver.go:202-210 | for every debounce period: after the close, and before updateChan is closed, some continuation still sends if and only if a goroutine is in its select, or a callback or a watcher past its check can still commit a list |
| ResolverStop.SendAfterStopHappens | consul/resolver.go:202-210 | for every debounce period there are runs in which a list is still sent after Stop, and runs in which none can be |
| ResolverStop.SendMayPanicIff | consul/resolver.go:244-245 | a run in which a goroutine is in its select with updateChan closed exists if and only if debouncing is on |
| ResolverDelivery.DeliveryInOrderIff | consul/resolver.go:397-413 | leaving the select keeps the commit order if and only if no goroutine holds an older commit |
| ResolverDelivery.ReceivedAsSent | consul/resolver.go:406-413 | in every run the commits received are the commits sent but for what is in the channel, in order |
| ResolverDelivery.SentInOrderIff | consul/resolver.go:397-413 | before Stop the commits arrive as 0, 1, 2 and so on if and only if none left its select before an older one |
| ResolverDelivery.SeparateSendersKeepOrder | consul/resolver.go:397-413 | if no commit is made while another is being sent, none overtakes another |
| ResolverDelivery.ReceiverHoldsLatest | consul/resolver.go:397-413 | at rest before Stop, after a run in commit order, every commit was received and the last one is the latest list |
| ResolverDelivery.WithoutDebounceInOrder | consul/resolver.go:373-378 | without debouncing the lock is held during the send, so every run delivers in commit order |
| ResolverDelivery.StaleListCanArriveLast | consul/resolver.go:397-413 | for any two different lists there is a run in which the older one arrives last and nothing is left to happen |
| ClientRuns.OrderedAndKeyedAgree | client_pool.go:10-26 | in every reachable state the ordered list enumerates the map's connections, each once |
| ClientRuns.ConnectionsAreConserved | client_resolver.go:67-132 | every connection an update built is installed or was handed to Disconnect exactly once, never both; no other connection is either |
| ClientRuns.SingleConnectionsAreConserved | client_resolver.go:244-256 | with a single connection, every one that ever was mqttClient still is or was handed to Disconnect exactly once, and nothing else was handed over |
| ClientRuns.UpdateDuringStopConservesIff | client.go:138-159 | with an update between stop's two sections conservation survives if and only if it installed nothing, for every client that stop finds initialized |
| ClientTheorems.StopLosesConnection | client.go:138-159 | in every configuration with several connections there is a run into which such an update falls, and a connection of it is then neither installed nor ever disconnected |
| ClientRuns.KeyedValues | client_resolver.go:181-193 | a map with one entry for each of its distinct names holds exactly the connections built for them |
| ClientTheorems.CreatedIsReachable | client.go:51-93 | a client fresh from NewClient is in a reachable view |
| ClientTheorems.ReachableStep | client_resolver.go:67-73 | an update or stop leads from a reachable view to a reachable one, which the methods of the class also ensure |
| ClientTheorems.InstalledClientIdsAreDistinct | client_resolver.go:139-157 | the revision counts generations, and installed connections never share a client id until it wraps |
| ClientTheorems.NextUpdateReusesIdIff | client_resolver.go:195-213 | two updates in a row use the same ids if and only if the first installed nothing |
| ClientTheorems.IdsAreReused | client_resolver.go:195-213 | in every configuration with several connections there is a run with two such updates, whose connections share a client id |
| ClientTheorems.UpdatesKeepConnections | client_resolver.go:88-104 | once a generation is installed no sequence of updates empties the client, and the installed one was seen open |
| ClientTheorems.SelectionIsSafeIff | exec.go:52-95 | no reachable state lets a pick find no connection at all if and only if the configuration avoids two combinations; the panic of a ticket from 2^63 on is another matter |
| ClientTheorems.PoolWithResolverPanics | client.go:236-247 | a run of a pool with a resolver that reaches a panicking state |
| Names.KeyIsInjective | client_resolver.go:153 | no two pairs of address and index share a key, whatever the hosts contain |
| Names.KeysAreDistinct | client_resolver.go:139-153 | no address list loses an entry to a key collision |
| Names.DecimalDenotes | client_resolver.go:148-153 | a printed number denotes itself, in digits only and without a leading zero |
| Names.ClientIdIsInjective | client.go:265-269 | base, index and revision can be read back from a client id |
| Names.PoolIdsAreDistinct | client_pool.go:14-22 | the keys of a pool are pairwise distinct |
| Tickets.TicketIsAddsBeforeLoad | exec.go:45-50 | under any interleaving a ticket is the number of adds before its load |
| Tickets.FinishedCallsHaveSmallerTickets | exec.go:45-50 | a call that finished before another's load has the smaller ticket |
| Tickets.EqualTicketsMeanOverlap | exec.go:45-50 | two tickets are equal if and only if no add lies between the loads, and then both calls are open |
| Tickets.TicketLagsByOpenCalls | exec.go:45-50 | a ticket plus the calls open at its load is the number of calls started |
| Tickets.QuiescentCounter | exec.go:45-50 | with no call open the counter holds the number of calls |
| Tickets.PickInRangeIff | exec.go:91-95 | the index is in range exactly below 2^63 and for the larger tickets that reach a multiple of the length |
| Tickets.ShareInClosedForm | exec.go:91-95 | how often k tickets in a row pick a connection, as a difference of two quotients |
| Tickets.RoundRobinIsFair | exec.go:91-95 | k consecutive tickets pick each of n connections floor(k/n) or ceil(k/n) times |
| Tickets.PublishesAreFair | exec.go:91-95 | k publishes in a row on a fixed generation, each as the class picks, choose each of its n connections floor(k/n) or ceil(k/n) times |
| Tickets.AtomicCounter.Next | exec.go:45-50 | run alone, returns the old value and adds one modulo 2^64 |
| Loops.BackoffClosedForm | exp_starter.go:51-88 | the first wait is 100ms, the k-th min(100ms * 2^(k-1), cap) |
| Loops.WaitsArePositiveIff | exp_starter.go:74-88 | every wait is positive if and only if the cap is below 2^62 nanoseconds |
| Loops.ExponentialStart | exp_starter.go:51-80 | the loop under a schedule computes the fold of the step function over it, whose meaning the next rows state |
| Loops.EveryStartIsOk | exp_starter.go:51-80 | under any schedule no send blocks, at most one result is in flight, attempts are failures plus one, none starts after a success, and waits follow the backoff |
| Loops.StartEndsOnlyIf | exp_starter.go:63-69 | the loop ends only after an attempt returned success or the context was cancelled, and every result it took was returned by an attempt |
| Loops.CancellationEnds | exp_starter.go:63-65 | from every run that is in the select after a cancellation the loop can leave, whatever the attempts do |
| Loops.SuccessEnds | exp_starter.go:66-69 | in every run an attempt that succeeds ends the loop once its result is taken, cancelled or not |
| Loops.FailureRetries | exp_starter.go:66-77 | in every run an attempt that fails is followed by another one and by exactly the next wait of the backoff |
| Loops.FinishedStartStays | exp_starter.go:61-80 | after the end nothing is started, received or waited for under any further schedule |
| Loops.AnyNumberOfWaits | exp_starter.go:51-80 | for every k some schedule leads to k failures and k waits with the next attempt running |
| Loops.WaitForConnection | utils.go:10-35 | the loop under a schedule computes the fold of the step function over it |
| Loops.EveryWaitIsOk | utils.go:10-35 | under any schedule no send blocks, at most one probe is in flight, the result is false exactly on expiry of the timer, and true needs a probe that returned true |
| Loops.ProbeAnswers | utils.go:24-32 | in every run that goes on, a probe's true ends the wait with true and its false lets the next tick start another |
| Loops.TimerEnds | utils.go:22-23 | the timer ends every run that goes on, with false, whether a probe is in flight or not |
| Loops.WaitResultStays | utils.go:20-34 | once it has returned, its result stays and no probe is started |
| Loops.ProbesUntilTrue | utils.go:10-35 | after any number of probes that return false one that returns true ends the wait with true, and the timer ends it with false |
| Errors.ReduceHoldsEveryError | client_resolver.go:258-269 | folding accumulateErrors keeps the elements of all results, in order, and nothing else |
| Errors.ReduceIsNilIff | client_resolver.go:258-269 | the fold is nil exactly if every result is nil or a multierror without elements |
| Errors.EveryResultIsHeld | client_resolver.go:258-269 | each result stands in its place in the fold: a multierror with all its own errors, any other error, wrapped or not, as it is |
| Errors.HeldErrorsComeFrom | client_resolver.go:258-269 | an error is in the fold if and only if it is a result or belongs to a multierror that is one |
| Errors.AccumulateOntoWrapped | client_resolver.go:261-265 | a wrapped multierror is continued as the multierror inside, any other wrapped error is kept whole |
| Errors.CombineIsNilIff | client_resolver.go:83-85 | a fan-out returns nil exactly if every call returned nil |
| CallOptions.ComposeOptions | options.go:37-45 | the last option of each kind wins |
| CallOptions.LastQosIsTheLastLevel | options.go:21-45 | the composed QoS is that of the last level option, or zero |
| CallOptions.LastRetainedIsTheLastFlag | options.go:26-45 | the composed retained flag is that of the last such option, or false |
| CallOptions.ReadSubscriptionMeta | client_telemetry.go:62-84 | every registered topic is reported with the QoS that composing its options sends |
| CallOptions.FilterSubs | client_subscribe.go:158-175 | the two parts are disjoint, follow the predicate and rejoin to the input |
| Subscriptions.RememberedMeansHeld | client_subscribe.go:140-156 | a connection remembers exactly what was acknowledged and not removed since |
| Subscriptions.AcknowledgedOnceBetweenRemovals | client_subscribe.go:140-156 | after an acknowledged shared subscribe the next attempt needs a removal in between |
| Subscriptions.InternalState.SubscribeOnlyOnce | client_subscribe.go:140-156 | a held topic costs no call, otherwise the broker's answer is the result; afterwards the topic is held exactly if the result is nil |
| Subscriptions.InternalState.RemoveSubs | client_unsubscribe.go:47-59 | the result is the broker's answer, and the topics are forgotten exactly if that is nil |
| Subscriptions.InternalState.Forget | client.go:249-260 | a lost connection remembers nothing |
| Fanout.RetryCallsOnlyFailures | client_subscribe.go:140-156 | a retry calls exactly the connections that failed and is nil if and only if those now succeed |
| Fanout.MultipleIsNotRemembered | client_subscribe.go:89-118 | SubscribeMultiple leaves what every connection remembers unchanged |
| Fanout.MultipleReachesEveryTopic | client_subscribe.go:89-118 | a SubscribeMultiple that succeeds subscribes each topic once, a shared one on every connection and any other on exactly one, and concerns no further topic |
| Fanout.UnsubscribeForgets | client_unsubscribe.go:47-59 | exactly the connections that acknowledged forget exactly these topics |
| Fanout.ResumedFreshIsCarried | client_resolver.go:75-86 | after every topic was tried on a generation without calls, all calls were acknowledged if and only if each shared topic is subscribed once everywhere and each normal one once on exactly one connection, with its registered QoS |
| Fanout.TurnsResume | client_resolver.go:75-86 | the turns of all topics in any order: every topic was tried whatever the others answered, the combined result is nil exactly if all was acknowledged, and a panic is due exactly to a topic without a connection to pick |
| Fanout.ResumingAgainIsHarmlessIff | client_resolver.go:67-86 | resuming on a generation that carries the registry keeps it exactly if every topic is shared and still remembered |
| Fanout.NormalTopicOnTwo | client_resolver.go:67-86 | for every normal topic there are two connections that carry it after such a resume, each with one call |
| CourierClient.NewClient | client.go:51-93 | refused exactly for the configurations named, the info emitter's interval included; otherwise a valid client whose view begins a run |
| CourierClient.CreatedAsBuilt | client.go:51-93 | what NewClient builds is an initial state of the runs |
| CourierClient.Client.InitializeConnectionPool | client_pool.go:10-26 | one fresh connection for each pool slot, under its own key, in order |
| CourierClient.Client.MultipleClients | client_resolver.go:139-216 | connections are built with their ids and each is asked whether it is open; they are counted as a generation if one is, otherwise all are handed over and none is returned |
| CourierClient.Client.ReloadClients | client_resolver.go:88-132 | a non-empty map replaces every state by an unused one and hands over all old connections; an empty one changes nothing |
| CourierClient.Client.ResumeSubscriptions | client_resolver.go:75-86 | every registered topic is subscribed once more on what the mode uses, shared ones just where they are not held, whatever the other topics' results; nil exactly if all calls were acknowledged; with no client an error and no call, and a panic exactly if a topic finds no connection to pick |
| CourierClient.Client.AttemptMultiConnections | client_resolver.go:67-73 | the client takes one update step of the runs, with the openness that each new connection reported, and stays reachable; every topic is tried on the generation then installed, and the result is nil exactly if a new one carries the registry, or an old one acknowledged everything again |
| CourierClient.Client.AttemptSingleConnection | client.go:236-247 | the client takes one single-connection step and stays reachable: the addresses are tried in turn, the replaced connection is disconnected, the last attempt kept, every topic tried on it, and nil returned exactly if it carries each of them once |
| ClientUpdates.EveryAddressHasItsTurn | client_resolver.go:218-242 | as many attempts in a row as there are addresses, wherever they begin, reach every address |
| CourierClient.Client.Subscribe | client_subscribe.go:12-26 | the calls made on every route, nil exactly if all connections hold a shared topic, and the registry written exactly on success |
| CourierClient.Client.SubscribeMultiple | client_subscribe.go:29-51 | one call for the shared topics on every connection and one for the others on one of them, in either order; a panic, without a call, exactly if there is none to make it on; on success each topic is registered with its QoS |
| CourierClient.RegisterAll | client_subscribe.go:38-50 | exactly the topics are overwritten, each with options that compose to its QoS |
| CourierClient.Client.Unsubscribe | client_unsubscribe.go:10-22 | one call on every connection; the registry drops the topics exactly on success |
| CourierClient.UnregisterAll | client_unsubscribe.go:15-19 | the registry without the topics |
| CourierClient.Client.RemoveStoredSubsCalled | client.go:249-260 | the lost connection forgets and no other one does |
| CourierClient.Client.PickForPublish | exec.go:52-95 | which connection a publish picks from the ticket, its answer as the result, and a panic exactly if the index is out of range |
| CourierClient.Client.Stop | client.go:138-159 | one stop step of the runs, after which the client is still reachable; nil exactly if it was initialized, and then no connection is left; a panic exactly if execute reaches a nil client |

## Left out

- Subscriptions.BrokerAnswer: no broker error is a multierror without elements (the type `Answer`); `Errors.ReduceIsNilIff` says what such an error would do.
- Tickets.PublishesAreFair: for calls that do not overlap and a counter below 2^63, where the conversion to `int` turns negative.
- ClientTheorems.InstalledClientIdsAreDistinct: for up to 2^64 generations, after which the revision repeats.
- CourierClient.Client.AttemptSingleConnection: the number of failed attempts is a parameter, since the recursion of `newClient` ends only with a success; failed attempts are not disconnected, which the histories show.
- CourierClient.Client.Stop: both locked sections as one step; `ClientRuns.UpdateDuringStopConservesIff` treats an update in between.
- CourierClient.Client.Subscribe: the broker calls and the registry write as one step, so claims about resuming are for updates that overlap no subscribe or unsubscribe; the lock of one connection is what makes its own calls sequential.
- CourierClient.Client.ResumeSubscriptions: the topics take their turns in an arbitrary order, and a panic in one of them ends the claim about calls; concurrent fan-outs on the same connection are ordered by its lock.
- CourierClient.NewClient: an empty client id falls back to the host name in client ids but not in pool keys, and one base stands for both here.
- Errors.AccumulateErrors: `multierror.Append` adds to the accumulated multierror in place; errors are values here, and nothing else holds that one.
- The value read after the unlock in `multipleClients`: a reload runs under the lock, so the compare-and-swap of the revision always succeeds and is one assignment.
- ResolverStop.SendAfterStopIff: a continuation may receive, so a consumer that never reads is not considered.
- A second call of `Start` or `Stop`, and what a panic in a select leaves behind.
- Failure of `Health` and `KV` queries beyond abandoning the call, JSON and TLS.
- paho itself: what Connect, Subscribe, Unsubscribe, Publish and Disconnect do on the wire.
- `slice.Reduce`, `slice.MapConcurrent`, `xmap.Values` and `generic.Set` are not part of the repository: a left fold from nil, one call for each element in any order, the values in any order, and a finite set.
- Nested read locks and deadlock freedom.
- Middleware, encoders and decoders, credentials, logging, metrics, tracing, the HTTP handler and the option setters: single-branch plumbing.
- `IsConnected`, `runConnect` and `routeFilters`: easy members over the same fan-out.
- Real time: timers and tickers fire at arbitrary moments.
