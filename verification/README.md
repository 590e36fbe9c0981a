# Verified models of a peer-to-peer node's core components

This project models six parts of the go-dep2p repository in Dafny and proves what they promise.

* **Event bus** (`internal/core/eventbus`). Publishers and subscribers meet at a node per event type.
  `EventBus.dfy` is an interleaving state machine: every operation in flight is a program counter,
  locks are part of the state, and one step is the code between two points where another goroutine
  can interfere. `EventBusInvariant.dfy` and `EventBusSteps.dfy` hold the invariant and the proof, in
  rely/guarantee style, that every step keeps it; `EventBusDelivery.dfy` accounts for every delivered
  and dropped event; `EventBusTheorems.dfy` states the results. `EventBusCalls.dfy` says which Emit calls
  emit what, in which order and to whom, `EventBusEffects.dfy` what Subscribe, Emitter and Close calls have
  done when they return, and `EventBusChannels.dfy` what is replayed and where every receive went. `BusNode.dfy` is the code that runs
  under a node's lock, in place, tied to whole uninterrupted loops of the state machine.
* **Dial scheduler** (`internal/core/connmgr/scheduler.go`). `DialQueue.dfy` is the intrusive heap:
  every state records its own position. `Scheduler.dfy` is the scheduler object; each of its methods
  is tied to a function of the state machine in `DialMachine.dfy`. Results about whole runs are in
  `DialTheorems.dfy` (no permanent peer is lost), `DialRedial.dfy` (redial bound, backoff),
  `DialOverlap.dfy` (when a state is in two places at once), `DialWithdrawn.dfy` (when a removed or
  banned peer is dialed after all), `DialExact.dfy` (exactly which runs are free of either),
  `DialSilent.dfy` (for how long a removed, banned, connected or lost peer is not dialed) and
  `DialHistory.dfy` (what a peer's attempts and priority say about the past).
  `SchedulerRun.dfy` drives the object through a run of the state
  machine, so that its heap is intact after every call and the run-level results hold of its fields.
* **Subnet rate limiter** (`internal/core/connmgr/ip_limit.go`). `RateLimit.dfy` has the token
  buckets on values with the rate bound, the isolation of subnets and the invisibility of cleanup;
  `RateLimitExact.dfy` says exactly when the first and the last hold, `RateLimitOrder.dfy` when the
  second does; `RateLimitAnswer.dfy` says which requests are let in; `SubnetLimiter.dfy` has the objects and the bubble sort.
* **Realm membership messages** (`internal/realm/realm.go`). `MemberLeave.dfy`: at-most-once handling
  of leave messages under a replay cache that is pruned. `JoinGossip.dfy`: the join gossip is finite
  and converges.
* **Identifier arithmetic** (`pkg/types`). `Positional.dfy`: numerals in a positional system.
  `Base58.dfy`: the Base58 bijection. `XorMetric.dfy`: the XOR metric of the distributed hash table.
* **Trimming and jitter tolerance** (`internal/core/connmgr`). `TrimPlan.dfy` and `ConnManager.dfy`:
  which connections a trim closes. `Jitter.dfy`, `JitterHistory.dfy` and `JitterTolerance.dfy`: how long a
  lost peer is held, and when it is redialed.

`Wrappers.dfy` and `Common.dfy` hold what several of these share.

Where the code mutates objects, the model has classes with the same fields and methods, and each
method's contract gives the new state as a function of the old one; the results are proved about
those functions. Clock readings are parameters. The rate limiter computes with reals, everything
else with unbounded integers.

Some promises hold only under a condition, and the model proves which:

* In all runs with at most q disconnect notifications for a static or permanent peer whose dial is in
  flight, and stored heap positions that tell who is queued, no state is ever queued twice exactly when q is zero, or nothing is ever dialed, or no
  configured peer is retried after a failed dial (`DialExact.QueuedOnceIff`). One such notification
  leaves the heap intact and one state in two places (`DialOverlap.DisconnectOverlapsIff`); a state that
  is queued twice means a broken heap (`SchedulerRun.Running.TwiceBreaks`). In runs without such
  notifications the scheduler's heap is intact after every call (`SchedulerRun.Running`).
* In all such runs without those notifications and with at most q removals or bans of a peer that waits
  for its dial or is being dialed, only states in the table that are not banned start to be dialed,
  unless permanent, exactly when q is zero or nothing is ever dialed (`DialExact.WantedStartsIff`).
  A peer that is taken out during its first dial can even be dialed a second time
  (`DialExact.RedialedRun`), because nothing checks a queued state again.
* The doubling backoff never shrinks exactly when the base does not exceed the cap
  (`DialRedial.BackoffMonotoneIff`): the cap is applied only after a doubling, so the first backoff
  can exceed it.
* The bound on admitted addresses holds for a limit in all runs exactly when `rps * expiry >= burst`,
  provided that no other limit stands in the way of its burst: a wider one has at least that burst, and
  a narrower one has it in all its subnets together (`RateLimitExact.RateBoundIff`). When the limits that
  do not refill are of this kind, cleanup cannot be observed in any run exactly when there is none of
  them (`RateLimitExact.CleanupHiddenIff`); all four default limits are, and with them five seconds is
  the exact expiry time (`RateLimitExact.DefaultsIff`). For the narrowest limit of any list the same
  condition decides the token bound (`RateLimitExact.TokenBoundIff`).
* Two limits isolate the narrow subnets exactly when the longer prefix comes first or the wide limit is
  at least as tight as the narrow one (`RateLimitOrder.OrderMatters`).
* A leave message is handled at most once in all runs exactly when no handler waits longer than 25
  seconds between reading the clock and taking the cache's lock (`MemberLeave.AtMostOnceIff`).
* A leave message of a member of this realm, at most 30 seconds old and at most 5 seconds ahead, whose
  signature was not found invalid, takes effect, and no other does, unless a message with its peer and
  timestamp got past the replay check before (`MemberLeave.TakesEffectIff`). Messages with an invalid
  signature count: they are recorded before the signature is looked at (`MemberLeave.InvalidCopyFirst`).
* Two replay cache keys are equal exactly when the timestamps and the joined peer and realm are
  (`MemberLeave.KeysEqualIff`), so the key is injective within a realm (`MemberLeave.KeyInjective`);
  a handler refuses other realms before it builds the key.
* Reconnect attempts stay within the configured maximum, in all runs with at most q launched and
  uncounted attempts of a peer at a tick, exactly when q is zero or no attempt is ever made
  (`Jitter.AttemptLimitIff`); `Jitter.Overshoot` is the run that exceeds any maximum when q is one. The
  reconnect delay never shrinks exactly when the initial one is within the maximum
  (`Jitter.DelayMonotoneIff`).

## Model

| member | source | states |
|---|---|---|
| EventBusSteps.RunKeeps | internal/core/eventbus/bus.go:186-255 | The structural invariant of locks, counters, sinks and node map holds in every reachable state |
| EventBusTheorems.AttachedExactlyOnce | internal/core/eventbus/bus.go:186-255 | In every interleaving a registered subscription occurs exactly once, in the sinks of the node its type maps to, and every emitter not yet decremented holds that node and is counted |
| EventBusTheorems.NodeNeverReplaced | internal/core/eventbus/bus.go:206-226 | No step changes the node of a registered subscription or of an emitter not yet decremented |
| EventBusTheorems.NeverPanics | internal/core/eventbus/subscription.go:36-55 | No reachable state has sent on, or closed, a closed channel; removeSub never takes its early return |
| EventBusTheorems.NoDeadlock | internal/core/eventbus/bus.go:186-285 | While an operation is in flight, some operation can step, whoever holds which lock |
| EventBusTheorems.RunNeverDeadlocks | internal/core/eventbus/bus.go:186-285 | No reachable state with an operation in flight is stuck |
| EventBusTheorems.StepWork | internal/core/eventbus/bus.go:258-285 | Every step of an operation lowers a natural measure of the work left |
| EventBusTheorems.OperationsFinish | internal/core/eventbus/bus.go:186-285 | Without new calls every schedule of the steps is bounded by the work left, and ends with nothing in flight |
| EventBusTheorems.NodesInUse | internal/core/eventbus/bus.go:206-255 | In a quiescent state the node map holds exactly the types with an open subscription or emitter |
| EventBusTheorems.RunNodesInUse | internal/core/eventbus/subscription.go:89-98 | The same in every run: the racing last-user checks, one of them after an unlocked decrement, never both leave a dead node |
| EventBusTheorems.DeliveryAccounting | internal/core/eventbus/bus.go:94-112 | Consumed plus queued is the replayed event, if any, followed by the offered events in emission order without the dropped ones; dropCount is the number of drops; what was offered is every event emitted on the node since registration once nothing is in flight, and for a removed subscription exactly those between registration and removal (which events are emitted: EventBusCalls.QuietEmitted) |
| EventBusTheorems.DropsOnlyWhenFull | internal/core/eventbus/bus.go:267-284 | An event is dropped only at a subscription whose buffer is full and that no receiver waits on |
| EventBusCalls.EmitOnce | internal/core/eventbus/subscription.go:71-83 | In every run an Emit call that finds its emitter closed returns and emits nothing; one that finds it open emits its event exactly once, on its emitter's node and no other, before it returns |
| EventBusCalls.EmittedInOrder | internal/core/eventbus/bus.go:258-285 | In every run the events emitted on a node are those of distinct Emit calls that found an emitter of the node open, in the order in which they took its lock |
| EventBusCalls.QuietEmitted | internal/core/eventbus/bus.go:258-285 | With nothing in flight, of every such call exactly one event, and of no other call any |
| EventBusCalls.EveryEmitOffered | internal/core/eventbus/bus.go:258-285 | A subscription registered when an Emit call of its type found its emitter open, and still registered once nothing is in flight, was offered the event of that call, at its place in the lock order |
| EventBusEffects.RunCalls | internal/core/eventbus/bus.go:64-172 | In every run each call is on its way or has had its effect, there is one handle for every Subscribe and Emitter call, and closeOnce runs only for a Close call |
| EventBusEffects.CallsTakeEffect | internal/core/eventbus/subscription.go:36-98 | A Subscribe or Emitter call that returned made the handle asked for, attached unless a Close call was made on it; a Close call that returned, concurrent ones included, has detached its handle and closed its channel |
| EventBusEffects.QuietHandles | internal/core/eventbus/subscription.go:36-98 | With nothing in flight a handle is attached if and only if no Close call was made on it, and its channel or emitter is closed if and only if one was |
| EventBusChannels.ReplayIff | internal/core/eventbus/bus.go:94-112 | In every run a subscription is registered with exactly one event in its channel, the last one emitted since the first stateful emitter of its node was made, if there is one and the channel has a buffer, and with none otherwise |
| EventBusChannels.ReceivesAccounted | internal/core/eventbus/bus.go:267-272 | While a channel is open every receive on it got one event, waits for one or was given up; nobody waits on a closed channel or on one that holds an event |
| EventBusChannels.ClosedDrains | internal/core/eventbus/subscription.go:36-55 | After it is closed, every further receive on a channel gets the next event that was in it, until none is left, and nothing is added |
| BusNode.Subscription.TrySend | internal/core/eventbus/bus.go:267-272 | The non-blocking send is the state machine's send, and reports whether there was room |
| BusNode.Node.Emit | internal/core/eventbus/bus.go:258-285 | After the delivery loop every sink is as the state machine leaves it, and the drop counter grew by the number of full sinks |
| BusNode.Node.AddSink | internal/core/eventbus/bus.go:100-112 | Registration with the stateful replay |
| BusNode.Node.RemoveSink | internal/core/eventbus/bus.go:240-250 | The subscription is gone, the others keep their order, and the report says whether nobody is left |
| BusNode.EmitAsMachine | internal/core/eventbus/bus.go:258-285 | Run without interruption, the machine's delivery loop does to all sinks and to the drop counter what the in-place loop is proved to do, and nothing to other subscriptions |
| DialQueue.Queue.Swap | internal/core/connmgr/scheduler.go:187-191 | Exchanges two states and keeps every recorded position right |
| DialQueue.Queue.Up | internal/core/connmgr/scheduler.go:178-191 | Restores the heap order after a push, keeping the contents and all positions |
| DialQueue.Queue.Down | internal/core/connmgr/scheduler.go:178-191 | Restores the heap order downwards, and says what is still open when nothing moved |
| DialQueue.Queue.Push | internal/core/connmgr/scheduler.go:193-198 | Adds one occurrence; heap order and positions hold again |
| DialQueue.Queue.Pop | internal/core/connmgr/scheduler.go:200-208 | Removes the root, whose position becomes -1; it is a minimum by dial time, then priority |
| DialQueue.Queue.Remove | internal/core/connmgr/scheduler.go:341-360 | Removes the state at a position, anywhere in the heap |
| DialQueue.Queue.Fix | internal/core/connmgr/scheduler.go:401-422 | Restores the heap after one key changed |
| DialQueue.RootIsMin | internal/core/connmgr/scheduler.go:178-185 | No queued state is before the root |
| DialQueue.FixReady | internal/core/connmgr/scheduler.go:401-422 | Changing one key leaves a heap that only that position can violate |
| Scheduler.Scheduler.constructor | internal/core/connmgr/scheduler.go:234-248 | A new scheduler is empty and intact |
| Scheduler.Scheduler.AddStatics | internal/core/connmgr/scheduler.go:250-253 | The configured peers enter table and queue in order |
| Scheduler.Scheduler.AddStatic | internal/core/connmgr/scheduler.go:256-268 | A static peer enters table and queue |
| Scheduler.Scheduler.AddPeer | internal/core/connmgr/scheduler.go:304-338 | Ban check, address update and insertion as in the state machine; an intact heap stays intact |
| Scheduler.Scheduler.RemovePeer | internal/core/connmgr/scheduler.go:341-360 | The call is the event of the state machine, whose effect DialSilent.RemovedGone and RemovedSilent tell; an intact heap stays intact |
| Scheduler.Scheduler.BanPeer | internal/core/connmgr/scheduler.go:363-378 | The call is the event of the state machine, whose effect DialSilent.BannedGone and BannedSilent tell; an intact heap stays intact |
| Scheduler.Scheduler.NotifyConnected | internal/core/connmgr/scheduler.go:381-398 | The state is marked connected, its attempts reset, and it leaves the queue |
| Scheduler.Scheduler.NotifyDisconnected | internal/core/connmgr/scheduler.go:401-422 | A static or permanent peer is due again after the base backoff, fixed in place or pushed |
| Scheduler.Scheduler.TakeDue | internal/core/connmgr/scheduler.go:496-523 | Takes a due state of the queue that is not being dialed, and with an intact heap one that no queued state precedes by dial time, then priority; takes nothing although the head is not being dialed only when nothing is due |
| Scheduler.Scheduler.CalculateBackoff | internal/core/connmgr/scheduler.go:595-605 | The loop computes the backoff whose closed form is DialRedial.BackoffForm |
| Scheduler.Scheduler.FinishDial | internal/core/connmgr/scheduler.go:539-592 | The end of a dial: success, retry with backoff and lower priority, or ban; the heap stays intact for a state that is not queued |
| Scheduler.Scheduler.Cleanup | internal/core/connmgr/scheduler.go:625-639 | Lifts exactly the bans that have run out |
| DialTheorems.RunSound | internal/core/connmgr/scheduler.go:256-592 | The dialing invariant holds after any events, and no state loses its identity |
| DialTheorems.PermanentNeverLost | internal/core/connmgr/scheduler.go:256-592 | With distinct static IDs, every permanent peer is at all times in the table and queued, connected or marked dialing; at most one dial per peer and at most ConcurrentDials in flight |
| DialRedial.RunBounded | internal/core/connmgr/scheduler.go:496-592 | The invariant behind the redial bound holds in every run of additions, passes, completions and cleanups |
| DialRedial.RedialBound | internal/core/connmgr/scheduler.go:496-639 | A peer that is not permanent gets at most max(1, MaxDialAttempts) dial starts in any window shorter than BackoffMax |
| DialRedial.BackoffRespected | internal/core/connmgr/scheduler.go:539-605 | After the k-th consecutive failure of a state its next dial starts at least calculateBackoff(k) later |
| DialRedial.BackoffForm | internal/core/connmgr/scheduler.go:595-605 | The doubling loop gives min(base * 2^(k-1), max) when the base is within the cap, and what it gives otherwise |
| DialRedial.BackoffMonotoneIff | internal/core/connmgr/scheduler.go:595-605 | The backoff never shrinks with further failures if and only if the base is within the cap |
| DialSilent.RemovedGone | internal/core/connmgr/scheduler.go:341-360 | Removal takes a peer that is not static out of the table and its state out of the queue, and changes nothing else; a static peer is left as it was |
| DialSilent.RemovedSilent | internal/core/connmgr/scheduler.go:341-536 | In runs without removals, bans and disconnect notifications mid-dial, no dial of a removed peer that is not static starts until it is added again |
| DialSilent.BannedGone | internal/core/connmgr/scheduler.go:363-378 | A ban is entered for any peer, and takes one that is not permanent out of table and queue |
| DialSilent.BannedSilent | internal/core/connmgr/scheduler.go:304-536 | In such runs no dial of a banned peer that is not permanent starts before the ban has run out, whoever adds it |
| DialSilent.AddedDue | internal/core/connmgr/scheduler.go:304-338 | Adding a banned peer changes nothing; adding another forgets an old ban and gives it new addresses, or a new state that is queued and due at once |
| DialSilent.ConnectedOut | internal/core/connmgr/scheduler.go:381-398 | A peer reported connected is marked so, has no failures, and is not queued |
| DialSilent.ConnectedSilent | internal/core/connmgr/scheduler.go:381-536 | In such runs a peer reported connected while nothing of it is being dialed is not dialed until it is reported lost, or taken out and added again |
| DialSilent.DisconnectedDue | internal/core/connmgr/scheduler.go:401-422 | A static or permanent peer reported lost is queued once and due after the base backoff; any other is only marked |
| DialSilent.LostWaits | internal/core/connmgr/scheduler.go:401-536 | In such runs no dial of a static or permanent peer that was reported lost starts within the base backoff |
| DialSilent.CleanupUnseen | internal/core/connmgr/scheduler.go:625-639 | Cleanup forgets exactly the bans that have run out, and no later call can tell |
| DialHistory.ConfiguredDue | internal/core/connmgr/scheduler.go:234-268 | A new scheduler has every configured peer queued once, static, due at once and of the highest priority |
| DialHistory.SucceededClean | internal/core/connmgr/scheduler.go:539-560 | A dial that succeeds leaves the state connected and without failures |
| DialHistory.FailedRetried | internal/core/connmgr/scheduler.go:562-592 | A failed dial that was the last one allowed takes the peer out and bans it for BackoffMax; any other is queued again after the backoff for the failures so far, one priority lower |
| DialHistory.AttemptsTell | internal/core/connmgr/scheduler.go:381-592 | In every run the attempts of a state are its failed dials since it last succeeded or was reported connected |
| DialHistory.PriorityTells | internal/core/connmgr/scheduler.go:496-592 | In every run the priority of a state is the one it came with, one lower for every retried failure, down to the lowest |
| DialOverlap.DisconnectOverlapsIff | internal/core/connmgr/scheduler.go:412-419 | A disconnect notification leaves a state in two places if and only if it concerns a redialed peer whose dial is in flight |
| DialOverlap.RunNoOverlap | internal/core/connmgr/scheduler.go:341-592 | In runs without such notifications, with every stored heap position true, no state is ever queued twice or queued while it is dialed, so a finished dial always meets an unqueued state (SchedulerRun.Running supplies the positions) |
| SchedulerRun.Running.constructor | internal/core/connmgr/scheduler.go:234-253 | A new scheduler with its configured peers starts a run of the state machine, with an intact heap |
| SchedulerRun.Running.StoredTrue | internal/core/connmgr/scheduler.go:341-422 | With an intact heap a stored position says truly whether the state is queued, which the run-level results about the state machine need |
| SchedulerRun.Running.AddPeer | internal/core/connmgr/scheduler.go:304-338 | The call is an event of the run, and the heap is intact after it |
| SchedulerRun.Running.RemovePeer | internal/core/connmgr/scheduler.go:341-360 | The removal is an event of the run, so that DialSilent.RemovedGone and RemovedSilent hold of it, and the heap is intact after it |
| SchedulerRun.Running.BanPeer | internal/core/connmgr/scheduler.go:363-378 | The same for a ban |
| SchedulerRun.Running.NotifyConnected | internal/core/connmgr/scheduler.go:381-398 | The same for a connection |
| SchedulerRun.Running.NotifyDisconnected | internal/core/connmgr/scheduler.go:401-422 | The same for a disconnection, unless it concerns a redialed peer in the middle of its dial |
| SchedulerRun.Running.TakeDue | internal/core/connmgr/scheduler.go:496-523 | After any such calls a round of the pass takes a due state that none in the heap precedes by dial time, then priority; as long as nobody was removed or banned mid-dial and the context has not ended, it takes nothing only when nothing is due |
| SchedulerRun.Running.Move | internal/core/connmgr/scheduler.go:496-544 | The steps between the locked sections, of the pass, the semaphore and the end of the context, are events of the run that leave the tables and the heap alone |
| SchedulerRun.Running.FinishDial | internal/core/connmgr/scheduler.go:539-592 | A finished dial always finds its state unqueued, so that pushing it back keeps the heap intact |
| SchedulerRun.Running.Cleanup | internal/core/connmgr/scheduler.go:625-639 | The cleanup is an event of the run as well |
| SchedulerRun.Running.NothingLost | internal/core/connmgr/scheduler.go:256-592 | After any such calls every configured permanent peer is in the table of the object and queued, connected or marked as being dialed, and nothing queued precedes the root of the heap by dial time, then priority |
| SchedulerRun.Running.TwiceBreaks | internal/core/connmgr/scheduler.go:187-208 | A state that is queued twice means that the heap is not intact |
| DialWithdrawn.EventInTableIff | internal/core/connmgr/scheduler.go:341-378 | An event keeps all queued and dialed states in the table if and only if it does not remove or ban a peer whose dial is in flight |
| DialWithdrawn.StartsWanted | internal/core/connmgr/scheduler.go:496-536 | In runs without removals, bans and disconnect notifications of that kind, no dial starts for a state that is not in the table, nor for a banned peer that is not permanent |
| DialWithdrawn.QueuedNotDialed | internal/core/connmgr/scheduler.go:512-516 | Until the context ends no queued state of such a run is behind a dial of its own peer |
| DialExact.QueuedOnceIff | internal/core/connmgr/scheduler.go:412-592 | In all runs with true stored positions and at most q disconnects of static or permanent peers mid-dial no state is queued twice if and only if q is zero, ConcurrentDials is zero, or no configured peer is permanent or allowed more than one attempt |
| DialExact.WantedStartsIff | internal/core/connmgr/scheduler.go:341-544 | In all runs with true stored positions, without such disconnects and with at most q removals or bans of peers waiting for the semaphore or being dialed, no dial starts for a state out of the table or, unless permanent, banned, if and only if q or ConcurrentDials is zero |
| DialExact.UnwantedRun | internal/core/connmgr/scheduler.go:518-535 | From any configuration a run in which a peer is removed or banned while its state waits for the semaphore, and its dial starts all the same |
| DialExact.RedialedRun | internal/core/connmgr/scheduler.go:496-592 | And one in which the peer is taken out during its dial, the dial fails, and the scheduler dials it a second time |
| RateLimit.WalkLevel | internal/core/connmgr/ip_limit.go:202-221 | A walk over the limits lowers the level of every bucket by exactly the tokens it took from it |
| RateLimit.SweepLevel | internal/core/connmgr/ip_limit.go:311-331 | Deleting an expired bucket changes no level when the limit refills within the expiry |
| RateLimit.Conservation | internal/core/connmgr/ip_limit.go:185-281 | Over any stretch of requests and cleanups, tokens given plus level left is at most level before plus inflow |
| RateLimit.TokenBound | internal/core/connmgr/ip_limit.go:185-281 | In any window of length d of any run a bucket gives at most burst + rps * d tokens |
| RateLimit.RateBound | internal/core/connmgr/ip_limit.go:185-331 | For every configured length and subnet, at most burst + rps * d addresses are admitted in any window of length d, with cleanups anywhere |
| RateLimit.NarrowFirst | internal/core/connmgr/ip_limit.go:202-221 | With longer prefixes first, a token of a wide bucket is preceded by one of each narrower bucket |
| RateLimit.Isolation | internal/core/connmgr/ip_limit.go:153-221 | The traffic of a narrow subnet removes at most its own burst + rps * d tokens from any wider bucket |
| RateLimit.CleanupUnobservable | internal/core/connmgr/ip_limit.go:239-331 | With any cleanup schedule the verdicts are those of a limiter that never deletes a bucket |
| RateLimitExact.RateBoundIff | internal/core/connmgr/ip_limit.go:261-331 | For a limit that no other one hinders the rate bound on admitted addresses holds in all runs if and only if rps * expiry >= burst |
| RateLimitExact.TokenBoundIff | internal/core/connmgr/ip_limit.go:202-331 | For the first, narrowest limit of a list of distinct lengths the token bound holds in all runs if and only if rps * expiry >= burst |
| RateLimitExact.CleanupHiddenIff | internal/core/connmgr/ip_limit.go:311-331 | When the limits that do not refill within the expiry are unhindered, cleanup cannot be observed in any run if and only if there are none |
| RateLimitExact.DefaultsIff | internal/core/connmgr/ip_limit.go:105-122 | With the four default limits cleanup cannot be observed in any run if and only if the expiry time is at least five seconds |
| RateLimitOrder.OrderMatters | internal/core/connmgr/ip_limit.go:153-221 | Two IPv4 limits isolate the narrow subnets in all runs if and only if they are in the sorted order, or the wide limit has no burst or both burst and rate within those of the narrow one |
| RateLimitAnswer.AllowIs | internal/core/connmgr/ip_limit.go:185-281 | With one limit per length a request asks the limits that apply to it in order for a token of its subnet until one has none available; every bucket asked is brought up to date and one token lower if it gave one, and no other bucket changes |
| RateLimitAnswer.AllowIff | internal/core/connmgr/ip_limit.go:185-222 | So a request is let in if and only if a token of every subnet it is limited by is available |
| SubnetLimiter.SortLimits | internal/core/connmgr/ip_limit.go:153-169 | The bubble sort gives a descending permutation, stable for equal lengths |
| SubnetLimiter.SortKeepsOwner | internal/core/connmgr/ip_limit.go:153-169 | Sorting does not change which configured limit owns the buckets of a length |
| SubnetLimiter.TokenBucket.Take | internal/core/connmgr/ip_limit.go:261-281 | Refill up to the burst, then one token or a refusal |
| SubnetLimiter.SubnetLimiter.constructor | internal/core/connmgr/ip_limit.go:125-150 | Sorted limits, no bucket, and ten minutes for a zero expiry |
| SubnetLimiter.SubnetLimiter.GetOrCreateBucket | internal/core/connmgr/ip_limit.go:239-258 | The bucket of a subnet, made full by the limit that first asks for it |
| SubnetLimiter.SubnetLimiter.Allow | internal/core/connmgr/ip_limit.go:185-222 | Verdict and buckets are those of the walk; invalid addresses pass |
| SubnetLimiter.SubnetLimiter.Cleanup | internal/core/connmgr/ip_limit.go:311-331 | Deletes exactly the buckets last asked more than the expiry time ago, and changes no other |
| MemberLeave.RealmImpl.HandleMemberLeave | internal/realm/realm.go:2524-2667 | Field checks, acceptance window, replay check, signature, membership and effect, in that order |
| MemberLeave.RealmImpl.CleanupMemberLeaveCache | internal/realm/realm.go:2697-2713 | Prunes exactly the entries older than twice the validity, 60 s |
| MemberLeave.KeyInjective | internal/realm/realm.go:2562-2563 | Within one realm equal cache keys mean equal peer and timestamp, negative timestamps and colons in peer IDs included |
| MemberLeave.KeysEqualIff | internal/realm/realm.go:2562-2563 | Two cache keys are equal if and only if the timestamps are and peer, colon and realm give the same text |
| MemberLeave.NeverTwice | internal/realm/realm.go:2510-2575 | No two messages with the same peer and timestamp get past the replay check in any run, prunings included |
| MemberLeave.PassesIff | internal/realm/realm.go:2530-2575 | A message gets past the replay check if and only if it names a peer and this realm, is at least -5 s and at most 30 s old, and its key is not in the cache |
| MemberLeave.AtMostOnceIff | internal/realm/realm.go:2550-2575 | That holds for all runs if and only if no handler waits more than 25 s between its clock reading and the replay check |
| MemberLeave.RefusedOnlyIfSeen | internal/realm/realm.go:2550-2575 | A message for this realm that is at most 30 s old and at most 5 s ahead is refused only if one with its peer and timestamp passed before |
| MemberLeave.TakesEffectIff | internal/realm/realm.go:2524-2615 | In any run with lags of at most 25 s a message takes effect if and only if it is of a member of this realm, from -5 s to 30 s old, not of invalid signature, and none with its peer and timestamp, whatever its signature, got past the replay check before |
| MemberLeave.InvalidCopyFirst | internal/realm/realm.go:2562-2590 | A copy with an invalid signature that arrives first is recorded, changes no member, and keeps the genuine message from taking effect |
| MemberLeave.MembershipIff | internal/realm/realm.go:2596-2667 | In any run of leave messages and prunings a peer is barred, gone or offline if and only if it was so at first or an accepted message about it, with a matching reason, made it so |
| JoinGossip.UnderstoodIff | internal/realm/realm.go:2459-2505 | Data on the member topic is taken for a message of one of the six kinds if and only if it is that message's encoding, whatever it carries |
| JoinGossip.Accounting | internal/realm/realm.go:2289-2327 | Steps of a run = discoveries + messages gone, and every (node, member) pair learnt sends exactly two messages to each other node |
| JoinGossip.RunsAreFinite | internal/realm/realm.go:2729-2772 | With n nodes and finitely many peers every run is bounded, whatever is lost |
| JoinGossip.QuietMeansAgreed | internal/realm/realm.go:2729-2772 | If no message is lost, a quiet state has every node knowing every discovered member |
| JoinGossip.NoRumours | internal/realm/realm.go:2729-2772 | No node learns of a peer that nobody discovered |
| JoinGossip.CostOfAgreement | internal/realm/realm.go:2289-2327 | From quiet to quiet every pair learnt costs exactly 2(n-1) messages |
| Positional.ConvertBack | pkg/types/base58.go:47-130 | Converting a numeral to another base and back gives the same digits, leading zeros included |
| Base58.DecodeEncodeIn | pkg/types/base58.go:47-130 | For any alphabet of 58 distinct characters decoding undoes encoding, on every byte string |
| Base58.EncodeDecodeIn | pkg/types/base58.go:47-130 | For any such alphabet decoding fails exactly on foreign characters, and encoding undoes it otherwise |
| Base58.DecodeEncode | pkg/types/base58.go:47-84 | Decoding undoes encoding for every byte string |
| Base58.EncodeDecode | pkg/types/base58.go:97-130 | Decoding fails if and only if a character is outside the alphabet; otherwise encoding undoes it |
| Base58.AlphabetIsOne | pkg/types/base58.go:13-28 | The alphabet has 58 distinct characters and starts with the digit for zero |
| Base58.EncodeBase58 | pkg/types/base58.go:47-84 | The division loop, the padding and the reversal compute the encoding |
| Base58.DecodeBase58 | pkg/types/base58.go:97-130 | The accumulation loop computes the decoding, or the error |
| XorMetric.XOR | pkg/types/ids.go:127-135 | The loop computes the bytewise exclusive or |
| XorMetric.DistanceCmp | pkg/types/ids.go:145-157 | The byte scan is the comparison of the distances as 256-bit numbers |
| XorMetric.CommonPrefixLen | pkg/types/ids.go:162-172 | The bit scan gives the number of leading zero bits of the 256-bit distance |
| XorMetric.DistanceIsXor | pkg/types/ids.go:127-135 | The bytewise distance is the exclusive or of the 256-bit numbers |
| XorMetric.IsMetric | pkg/types/ids.go:127-135 | Zero only for equal hashes, symmetric, triangle inequality |
| XorMetric.Unidirectional | pkg/types/ids.go:145-157 | No two different hashes are equally far from a peer |
| XorMetric.CmpOrder | pkg/types/ids.go:145-157 | The comparison is a total preorder whose ties are equal hashes |
| XorMetric.OnePrefixLength | pkg/types/ids.go:162-172 | The number of leading zero bits is unique |
| XorMetric.PrefixUltrametric | pkg/types/ids.go:162-172 | The prefix shared by a and c is at least the shorter of those shared with b |
| XorMetric.LongerPrefixIsCloser | pkg/types/ids.go:145-172 | A strictly longer common prefix means strictly closer |
| XorMetric.FullPrefix | pkg/types/ids.go:162-172 | 256 is returned exactly for equal hashes |
| TrimPlan.TrimReaches | internal/core/connmgr/trim.go:15-71 | An uncancelled trim from above the target leaves at most max(target, protected connections), and exactly that many with one connection per peer |
| TrimPlan.TrimKeeps | internal/core/connmgr/trim.go:50-70 | However early it is cancelled, a trim leaves the target when peers have one connection each, and keeps every protected connection |
| ConnManager.Manager.TrimToTarget | internal/core/connmgr/trim.go:15-71 | Closes distinct peers without any protection tag, none of which outranks a surviving one of them, as many as the quota or the cancellation allows; every peer with a tag keeps all its connections |
| ConnManager.Manager.Candidates | internal/core/connmgr/trim.go:25-48 | The candidates are the connected peers without any protection tag, each once and with its score |
| ConnManager.Manager.CalculateScore | internal/core/connmgr/manager.go:412-436 | The score is the sum of the weights, plus 10 for a positive "connected" weight when there is a host, plus 20 for a peer with at least one protection tag |
| ConnManager.Manager.CheckAndTrim | internal/core/connmgr/manager.go:546-572 | Trims to the low water mark only when the connection records exceed both marks and there is a host; every peer with a tag keeps all its connections |
| ConnManager.Manager.TrimOpenConns | internal/core/connmgr/manager.go:190-205 | Trims to the low water mark unless closed or without a host; every peer with a tag keeps all its connections |
| ConnManager.ProtectStore.Protect | internal/core/connmgr/protect.go:21-30 | Adds one protection of one peer |
| ConnManager.ProtectStore.Unprotect | internal/core/connmgr/protect.go:34-53 | Removes one tag of one peer, and reports whether any other tag of it remains |
| ConnManager.ProtectStore.HasAnyProtection | internal/core/connmgr/protect.go:71-79 | A peer is protected if and only if some tag is on it |
| ConnManager.Manager.StandingSpared | internal/core/connmgr/trim.go:15-71 | After any calls of Protect and Unprotect that leave one tag of a peer standing, a trim leaves all its connections |
| ConnManager.TotalRemove | internal/core/connmgr/tags.go:64-73 | The sum of the weights does not depend on the order of the iteration |
| ConnManager.TotalChange | internal/core/connmgr/tags.go:26-61 | What setting or deleting a tag does to the sum |
| ConnManager.TagStore.Set | internal/core/connmgr/tags.go:26-35 | Sets one tag of one peer; the first tag fixes the first-seen time |
| ConnManager.TagStore.Delete | internal/core/connmgr/tags.go:49-61 | Deletes one tag; the last one takes the peer's entry and first-seen time with it |
| ConnManager.TagStore.Sum | internal/core/connmgr/tags.go:64-73 | The loop over the map, in any order, computes the sum of the weights |
| Jitter.HeldUntilExpired | internal/core/connmgr/jitter.go:156-318 | In any run a lost peer that is not reported connected is in the table, with the time of its last loss, until the first tick that finds the hold time run out or its attempts used up, and that tick removes it |
| Jitter.AttemptsBounded | internal/core/connmgr/jitter.go:285-378 | If every launched attempt is counted before the next tick, attempts made and launched never exceed a positive maximum in any run |
| Jitter.Overshoot | internal/core/connmgr/jitter.go:285-345 | For every positive maximum a run, with at most one uncounted attempt at a tick, that makes one attempt too many |
| Jitter.AttemptLimitIff | internal/core/connmgr/jitter.go:285-378 | With at most q uncounted attempts of a peer at any tick, the maximum holds in all runs if and only if q is zero or the tolerance never dials |
| Jitter.DelayGrows | internal/core/connmgr/jitter.go:381-395 | From the first attempt on the delay is non-decreasing and within the maximum |
| Jitter.DelayMonotoneIff | internal/core/connmgr/jitter.go:381-395 | The delay never shrinks with further attempts, the first included, if and only if the initial delay is within the maximum |
| Jitter.DelayLaw | internal/core/connmgr/jitter.go:381-395 | The delay after the first attempt is the smaller of the initial delay and the maximum, and after every further one the smaller of the multiplier times the last one and the maximum |
| Jitter.DelayForm | internal/core/connmgr/jitter.go:381-395 | So after k attempts it is the smaller of initial * multiplier^(k-1) and the maximum |
| Jitter.DelayWhole | internal/core/connmgr/jitter.go:394 | The delay used is that rounded down to whole nanoseconds |
| Jitter.DelayStrict | internal/core/connmgr/jitter.go:381-395 | Below the maximum it grows strictly |
| JitterHistory.EntryTells | internal/core/connmgr/jitter.go:156-378 | In every run the entry of a lost peer is told by the events since it was made: the last loss, the attempts counted, the next time, which is the initial delay after the first loss or the backoff after the last failure, and the status |
| JitterHistory.RedialedIff | internal/core/connmgr/jitter.go:285-318 | A tick redials a lost peer if and only if redialing is on, its next time has passed, the hold time has not, and attempts are left |
| JitterHistory.CallsTell | internal/core/connmgr/jitter.go:321-378 | In every run the callback is under way exactly once for every attempt that found its peer in the table and is not finished |
| Jitter.BackoffRespected | internal/core/connmgr/jitter.go:285-378 | After the k-th attempt failed, a peer that stays in the table is not launched again before the backoff for k attempts has run out |
| JitterTolerance.JitterTolerance.NotifyDisconnected | internal/core/connmgr/jitter.go:156-193 | A new entry, or a renewed hold for a known one |
| JitterTolerance.JitterTolerance.NotifyReconnected | internal/core/connmgr/jitter.go:196-207 | The entry is gone |
| JitterTolerance.JitterTolerance.ShouldRemove | internal/core/connmgr/jitter.go:210-236 | True if and only if the tolerance is off, or the peer is in the table and its hold time or its attempts have run out, which is the criterion a tick applies |
| JitterTolerance.JitterTolerance.ProcessDisconnectedPeers | internal/core/connmgr/jitter.go:285-318 | The pass in any order removes exactly the peers for which ShouldRemove holds, redials exactly those that are due, and is one tick of the state machine |
| JitterTolerance.JitterTolerance.BeginAttempt | internal/core/connmgr/jitter.go:321-345 | The attempt is counted before the callback, unless the peer or the callback is gone |
| JitterTolerance.JitterTolerance.FinishAttempt | internal/core/connmgr/jitter.go:347-378 | A failure sets the next time by the number of attempts so far; the delays are those of Jitter.DelayForm |

## Left out

- Event bus form: the protocol across goroutines is a state machine on values; only the code under a node's lock is also modelled in place. Nil and non-pointer event types, which return an error before any lock is taken, are not modelled, nor is GetAllEventTypes.
- Slow-consumer warnings and all other logging.
- The goroutine that drains a closed subscription: what it takes counts as received.
- container/heap and sort.Slice: container/heap is modelled as the sift operations on the dial queue; sort.Slice is any method that returns an ascending rearrangement.
- Several clock readings inside one locked section are one reading.
- Scheduler loop timing: when scheduling passes start (timer, wake-up channel), dial timeouts and Stop; a pass may start at any time.
- DialRedial.RedialBound: covers runs of additions, passes, completions and cleanups; RemovePeer, BanPeer and the connection notifications reset the table by hand and are not part of these runs.
- Rate limiter concurrency: one request, and one cleanup, is one step; bucket creation and its first take share a clock reading. AddIPv4Limit and AddIPv6Limit, which change the limits of a running limiter, and the string wrappers are not modelled.
- Floating-point rounding in the rate limiter and in the jitter backoff: both are computed with reals, the latter rounded down once.
- RateLimitExact.RateBoundIff: the converse is for limits of distinct lengths that no other limit hinders; a tighter limit can refuse what a hindered one would let through. RateLimitExact.TokenBoundIff needs no such condition for the narrowest limit.
- RateLimitAnswer.AllowIff: for one limit per prefix length, as in the default configuration; of two limits of one length the second asks the bucket that the first has just lowered.
- RateLimitExact.CleanupHiddenIff: the same for the limits that do not refill within the expiry time.
- Signatures of leave messages: the outcome of the check is a parameter. Failures of the member manager's own operations are not modelled; the manager is not part of this model.
- MemberLeave.MembershipIff: members that join or rejoin between leave messages are not part of these runs.
- DialSilent.RemovedSilent: like BannedSilent, ConnectedSilent and LostWaits for runs without removals, bans and disconnect notifications in the middle of a dial; DialExact.UnwantedRun and DialExact.RedialedRun show what happens otherwise.
- JoinGossip.RunsAreFinite: full-list synchronisation, retries after a failed publication and departures are not modelled; a failed publication is a lost message.
- Addresses carried by join messages, JSON decoding and the connection attempts they trigger.
- SHA-256: a peer's hash is any 32 bytes.
- The host: CloseConnection closes every connection of a peer and its error is ignored, as in the code; connections do not change otherwise during a trim.
- UpsertTag, GetTagInfo, decaying tags, message-rate trackers and the emergency water mark.
- State-change callbacks of the jitter tolerance.
- Configuration presets, option parsing, command line, DHT, transports and cryptography.
