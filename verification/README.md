# ClearSync core: model and proofs

ClearSync is a multi-threaded daemon. Its threads and plugins talk over an event bus; a timer
thread feeds that bus; a netlink thread turns kernel messages into replies to queries; each
plugin keeps its state in a binary file; the main thread fans plugin events out by filter. This
project models these parts in Dafny and proves what they guarantee over all inputs, all runs
and all interleavings.

Each part has two layers: a specification on values (datatypes and functions), about which the
theorems are proved, and, where the program updates objects in place, a class or a loop whose
contract ties it to that specification.

| file | what it models |
|---|---|
| `Events`, `ClientQueue` | events, their four flags, the queue of one client under pushes, pops and enable calls |
| `EventBus`, `EventClients` | the client registry, dispatch and broadcast, ownership of event objects; the same as objects |
| `BroadcastSteps` | a broadcast one push at a time, with pops, enable calls and direct pushes in between |
| `PopWait` | EventPopWait against concurrent pushes, one lock operation or memory update per step |
| `LockOrder` | the lock operations of every call, run by any number of threads |
| `Timers`, `TimerBus`, `TimerThread` | one timer; the timer vector driving the bus; the same as objects |
| `NetlinkFrames`, `NetlinkRouter`, `NetlinkBus`, `NetlinkThread` | the walk over a netlink buffer; queries, watches and sequence numbers; the router on the event bus; the thread that does all this as an object |
| `Counting` | occurrences in a sequence |
| `Bytes`, `StateStore`, `PluginState` | little-endian numbers; the state file format; typed variables, the file and the plugin object |
| `PluginFilter`, `PluginDispatch` | filter parsing and fan-out; the dispatch loop over the registry object |
| `HexDump` | the dump of a byte buffer |

The main results:

- **Shutdown.** After a QUIT broadcast every enabled client holds a QUIT for the rest of its
  life and never again pops a normal event (`EventBus.QuitReachesEveryone`), also when other
  operations fall between the pushes of the broadcast
  (`BroadcastSteps.SplitQuitReachesEveryone`).
- **Ownership.** Every event object is queued in one place, handed to one consumer, or destroyed
  once, over every run (`EventBus.OwnershipConserved`, `EventBus.SingleOwner`,
  `BroadcastSteps.OwnershipOfEveryRun`).
- **Queue order.** The flags leave no freedom in the order of a queue, and normal events leave
  in push order (`ClientQueue.RunKeepsShape`, `OrderIsUnique`, `NormalPopsInPushOrder`).
- **Waiting.** What exactly a blocked consumer can have in its queue, that every push under way
  while it is blocked wakes it, and exactly when a wakeup is missed (`PopWait.BlockedQueue`,
  `PushWakes`, `MissedExactlyIf`).
- **Locks.** No deadlock and no data race among any number of threads (`LockOrder.NoDeadlock`,
  `LockOrder.NoRace`).
- **Timers.** The exact number of events of every timer, from the calls made alone, and in its
  client's queue (`Timers.FiresByTheCalls`, `TimerBus.EventsInQueue`).
- **Netlink.** A query is handed exactly the messages meant for it if and only if no pending
  query has its number when it is issued (`NetlinkRouter.ServedIfAndOnlyIfUnique`), which only
  one from before the last reset can have (`NetlinkRouter.ServedInEveryEpoch`,
  `NetlinkRouter.CountedQueriesAreServed`), and the
  client that sent it is pushed its event once for each of them
  (`NetlinkBus.RepliesReachTheSender`).
- **State files.** Saving over any file and loading restores the state if and only if no key is
  empty (`StateStore.RoundTrip`); the store behaves as a map with a snapshot if and only if no
  save finds a variable under the empty key (`PluginState.StoreRefines`).
- **Routing.** From filter texts to queues, one clone or none
  (`PluginFilter.RoutedExactlyIfNamed`).

Where the code does something other than its names or comments suggest, the model follows the
code:

- SaveState counts an entry with an empty key (csplugin.cpp:154) but does not write it
  (csplugin.cpp:163), so such a state is never restored, and on a longer old file one stale
  record can be read instead (`StateStore.RoundTrip`, `StateStore.StaleRecordIsRead`,
  `PluginState.EmptyKeyIsLost`).
- EventPopWait tests the queue under one mutex and waits under another (csevent.cpp:210, 254),
  so a wakeup can be missed (`PopWait.MissedWakeup`, `PopWait.MissedExactlyIf`).
- Route messages go to route watches only, even when they answer an RTM_GETROUTE query
  (csnetlink.cpp:274-284, `NetlinkRouter.RouteAnswerIsLost`).
- A rejected query type joins the table with number 0 (csnetlink.cpp:212, 227-231), where a
  message with number 0 would reach it (`NetlinkRouter.RejectedQueryIsAnswered`).
- A filter piece of spaces only becomes the empty name (csmain.cpp:512-517); and a plugin cannot
  listen to another plugin whose name differs from its own in case only (csmain.cpp:518).
- The address column of the hex dump shows five digits, so it repeats from 2^20 bytes on
  (csutil.cpp:190, `HexDump.LabelReadsBack`).

## Model

| member | source | states |
|---|---|---|
| `ClientQueue.RunKeepsShape` | csevent.cpp:148-165 | after any pushes, pops and enable calls, a queue is its high-priority events in reverse arrival order followed by its normal events in arrival order |
| `ClientQueue.OrderIsUnique` | csevent.cpp:160-165 | that order leaves no freedom: two queues in it with the same events are equal |
| `ClientQueue.NormalPopsInPushOrder` | csevent.cpp:207-227 | over any run, with exclusive replacements and sticky pops in between, normal events are popped in the order they were pushed; only a sticky one repeats |
| `ClientQueue.PushKeepsOthers` | csevent.cpp:150-165 | an accepted exclusive push never raises the count of an id already queued, any other adds one; the events of other ids stay, in the same relative order |
| `ClientQueue.ExclusiveIsLatest` | csevent.cpp:150-165 | if an id is only pushed exclusively, every reachable queue holds at most one event of it, and that is the one accepted last |
| `ClientQueue.QuitStays` | csevent.cpp:141-227 | a client that holds a sticky, high-priority QUIT holds one after any operations, and the event it would pop is never a normal one |
| `ClientQueue.DrainStopsAtSticky` | csevent.cpp:207-218 | n pops without pushes remove the first n events, but never the first sticky one or any behind it |
| `ClientQueue.LoopEndsExactlyIf` | csmain.cpp:582-608 | with no further pushes, a consumer that pops until it sees a QUIT ends if and only if the first sticky event of its queue is a QUIT |
| `ClientQueue.QuitIsPopped` | csmain.cpp:582-608 | whatever is pushed meanwhile, a client that holds a QUIT gets one among as many pops as there are events queued at the start and pushed since, if no other high-priority event is sticky |
| `EventBus.PushOwners` | csevent.cpp:141-165 | a push takes in the new object and deletes exactly the one it replaces, or the new one if the client is disabled |
| `EventBus.BroadcastOwners` | csevent.cpp:181-187 | a broadcast creates one object per enabled client, and queues and deletions together account for each of these once and for every older object as before |
| `EventBus.StepOwners` | csevent.cpp:71-227 | every bus operation leaves the number of owners of each existing object as it was and gives each object it creates one owner |
| `EventBus.OwnershipConserved` | csevent.cpp:101-227 | over every run with non-persistent, owned events, each object ever created is queued, handed out or destroyed, exactly one of these and exactly once |
| `EventBus.OwnershipFromStart` | csevent.cpp:71-227 | the same for every run of the daemon from its start, without clients and events |
| `EventBus.SingleOwner` | include/clearsync/csevent.h:129-131 | a queued object is at one position of one queue only, and has been neither handed out nor destroyed |
| `EventBus.PersistentIsNeverDeleted` | include/clearsync/csevent.h:129-131 | over every run no operation deletes a persistent event, whether replaced, refused, sent to nobody, broadcast, released or left in the queue of a deleted client |
| `EventBus.PopThenReleaseIsOwned` | csmain.cpp:582-608 | a consumer that pops an event and destroys what it got stays within the ownership discipline, also when it got the copy of a sticky event |
| `EventBus.DispatchProjects` | csevent.cpp:174-205 | whatever the registry, a dispatch acts on each client as one push if it is a broadcast or names that client, and not at all otherwise |
| `EventBus.StepProjects` | csevent.cpp:71-227 | every operation on the bus keeps every client but the one it deletes, and acts on it as its own queue operations do |
| `EventBus.NewlyRegistered` | csevent.cpp:71-99 | a client enters the registry only by being constructed, and then it is enabled and queues nothing |
| `EventBus.NewClientReceives` | csevent.cpp:71-205 | the first event sent to a new client, or broadcast, is exactly what it queues, marked with sender and target |
| `EventBus.EnableDecides` | include/clearsync/csevent.h:134 | a client switched on queues what is sent to it; one switched off keeps its queue as it is, and the event is destroyed |
| `EventBus.DeletedIsGone` | csevent.cpp:101-139 | a deleted client is out of the registry, and what is sent to it then is destroyed |
| `EventBus.ArrivesMarked` | csevent.cpp:160-205 | an enabled client gets a directed or broadcast event at the front if it is high-priority and at the back if not, marked with sender and target and otherwise unchanged |
| `EventBus.OthersUnchanged` | csevent.cpp:188-202 | an event sent to one client, or to nobody, leaves every other client as it was |
| `EventBus.RunKeepsSound` | csevent.cpp:71-227 | over every bus run, every queue keeps its order and every QUIT in it is sticky and high-priority, if the dispatched ones are |
| `EventBus.HeldQuitStays` | csevent.cpp:141-227 | a client that holds a QUIT holds one, in front of every normal event, after any bus run that does not delete it |
| `EventBus.QuitReachesEveryone` | csmain.cpp:101-111 | after a QUIT broadcast at any point of any run, every client then enabled holds a QUIT in every later state of its life and never pops a normal event again |
| `BroadcastSteps.QuitFromItsTurnOn` | csevent.cpp:181-187 | whatever falls between the pushes of a QUIT broadcast, a client that is enabled when its copy is pushed holds a QUIT from then on for life and never pops a normal event again |
| `BroadcastSteps.SplitQuitReachesEveryone` | csevent.cpp:174-187 | a client that is enabled when the broadcast begins and not disabled while it is under way holds a QUIT from its completion on for life, whatever pops, pushes and enable calls interleave |
| `BroadcastSteps.RunKeepsSystemSound` | csevent.cpp:141-227 | over every such run every queue keeps its order and every QUIT its flags |
| `BroadcastSteps.OwnershipOfEveryRun` | csevent.cpp:101-227 | over every such run each object is queued, handed out, destroyed or being broadcast, exactly one of these and exactly once |
| `BroadcastSteps.UninterruptedIsAtomic` | csevent.cpp:181-187 | a broadcast whose pushes nothing falls between does exactly what the one-step dispatch does |
| `BroadcastSteps.AlwaysPossible` | csevent.cpp:181-187 | pops, enable calls, releases and direct pushes are possible at any time, also between the pushes of a broadcast |
| `BroadcastSteps.BroadcastGoesOn` | csevent.cpp:181-187 | whatever happens in between, a broadcast that has begun can take its next step |
| `EventClients.EventClient.constructor` | csevent.cpp:71-72 | a new client is enabled and its queue is empty |
| `EventClients.EventClient.Find` | csevent.cpp:151-157 | the search finds the first queued event with the id |
| `EventClients.EventClient.EventPush` | csevent.cpp:141-172 | the object's queue changes as the specified push, and the deleted events are the specified ones |
| `EventClients.EventClient.EventPop` | csevent.cpp:207-227 | the front event is returned and removed, or a copy of it returned if it is sticky |
| `EventClients.EventClient.EventsEnable` | include/clearsync/csevent.h:134 | only the enable switch changes |
| `EventClients.Registry.Find` | csevent.cpp:189-194 | the search finds the position of a client, or that it is not registered |
| `EventClients.Registry.Add` | csevent.cpp:93-98 | the registry gains the new client at its end and nothing else changes |
| `EventClients.Registry.Remove` | csevent.cpp:101-139 | the client leaves the registry, exactly what it queued is destroyed, and no other client changes |
| `EventClients.Registry.DestroyAll` | csevent.cpp:109-111 | the loop destroys every non-persistent queued event once |
| `EventClients.Registry.BroadcastAll` | csevent.cpp:181-187 | the loop over the registered objects delivers the specified broadcast |
| `EventClients.Registry.EventDispatch` | csevent.cpp:174-205 | for every registry, event and target, the objects end up as the specified dispatch says |
| `EventClients.Registry.EventPop` | csevent.cpp:207-227 | the pop through the registry returns the front event's contents and hands out exactly one object |
| `PopWait.StepKeepsInvariant` | csevent.cpp:148-171 | each lock operation or memory update of the pushers and the consumer keeps the invariant on what the queue may hold |
| `PopWait.BlockedQueue` | csevent.cpp:250-266 | in every reachable state, each event queued at a blocked consumer was pushed between its last empty pop and its entry to the wait, unless its broadcast is still to come |
| `PopWait.PopTakesTheFront` | csevent.cpp:210-220 | the consumer's pop gets the front event, which leaves the queue unless it is sticky, or finds the queue empty |
| `PopWait.UnlockDecides` | csevent.cpp:250-252 | until the consumer unlocks nothing else can happen to the queue; then the call returns the event it popped, or goes on to wait if there was none |
| `PopWait.ReturnsOnlyWith` | csevent.cpp:250-268 | in every reachable state the call returns only with an event it popped or, out of the wait, with none when its time is up |
| `PopWait.OtherSteps` | csevent.cpp:148-171 | a call begins with a pop, a blocked consumer can always wake or time out, and a push queues its event at the front if it is high-priority and at the back if not |
| `PopWait.PushWakes` | csevent.cpp:148-171 | over every interleaving, a push that is under way while the consumer is blocked, begun before or during the wait, ends that wait: the consumer stays in it only as long as the push has not broadcast |
| `PopWait.PushCompletes` | csevent.cpp:148-171 | a push that starts while the consumer is blocked is under way at once and can run to its broadcast, which wakes the consumer with the event queued |
| `PopWait.MissedWakeup` | csevent.cpp:207-269 | a run in which the consumer sleeps although an event is queued and its broadcast is over |
| `PopWait.MissedExactlyIf` | csevent.cpp:250-266 | in every reachable state a wakeup is missed if and only if the consumer is blocked, no broadcast is to come and the last push fell between its empty pop and its entry to the wait |
| `PopWait.MissedLasts` | csevent.cpp:250-266 | a missed wakeup lasts, with the queue unchanged, until another push, a spurious wakeup or the time limit |
| `LockOrder.CallIsDisciplined` | csevent.cpp:84-204 | every call, whatever timers, clients and log levels it meets, takes locks in the one order, touches shared data only under its guard, releases only what it holds and ends holding none |
| `LockOrder.NestedHandOver` | csevent.cpp:101-139 | the client destructor, which takes the critical section before it gives the registry back, keeps to the order |
| `LockOrder.RunKeepsOrder` | csevent.cpp:84-204 | in every reachable state of any number of threads no lock has two holders and every thread is inside the discipline |
| `LockOrder.WaitingEnds` | cstimer.cpp:233-253 | from every thread inside a call, following who waits for whom leads in at most five hops to a thread that can step |
| `LockOrder.NoDeadlock` | cstimer.cpp:214-253 | started idle, after any interleaving, no thread waits for itself, and while any call is unfinished some thread can step |
| `LockOrder.NoRace` | csevent.cpp:93-220 | at no moment of any interleaving are two threads about to touch the same data, nor is one about to touch data whose guard another holds |
| `LockOrder.CallTouches` | cstimer.cpp:214-253 | each call does touch the data it works on: timer list, timers, client list, queues, reply lists, log |
| `LockOrder.PushedUnderRegistry` | csevent.cpp:174-205 | a dispatch makes each of its pushes while it holds the registry |
| `LockOrder.TickedUnderVector` | cstimer.cpp:233-253 | a tick does all its work while it holds the timer vector |
| `Timers.ClosedForm` | cstimer.cpp:233-253 | after any interleaving of Start, Stop and Tick with r running ticks, the number of events is 0 if r < max(value, 1) and else 1 + (r - max(value, 1)) / interval, and the remaining value follows from r alone |
| `Timers.RunsExactlyIfStarted` | cstimer.cpp:68-80 | a periodic timer runs if and only if the last Start or Stop was a Start, or there was none and it ran before |
| `Timers.FiresByTheCalls` | cstimer.cpp:68-253 | the events of a periodic timer and the value left, as a function of its first value, its interval and the ticks that follow a Start with no Stop since |
| `Timers.RestartFires` | cstimer.cpp:239-248 | a timer without a positive interval that has fired fires once more on a Start and a tick, and stops again |
| `Timers.OneShotStops` | cstimer.cpp:246-247 | a timer whose interval is not positive stops when it fires, and stays silent until Start |
| `Timers.FiresAtFirst` | cstimer.cpp:239-240 | an event has been sent if and only if max(value, 1) running ticks have passed |
| `Timers.ExtendDelays` | cstimer.cpp:102-110 | Extend(k) moves the next event by exactly k running ticks if and only if k is 0 or the remaining value is positive before and after |
| `TimerBus.QueuesFollowTimers` | cstimer.cpp:233-253 | over n ticks without pops, each enabled client's queue grows by exactly the events of the timers that report to it, by tick and then by vector position, nothing else moving |
| `TimerBus.RemoveIsFilter` | cstimer.cpp:221-231 | erasing the first match leaves no match |
| `TimerBus.RemovedTimerIsSilent` | cstimer.cpp:221-231 | after RemoveTimer no event names the removed timer and the others fire as if it had never been there |
| `TimerBus.QueuesWithoutTimer` | cstimer.cpp:221-253 | after RemoveTimer each enabled client's queue grows over n ticks by the events it would have got, without those of the removed timer |
| `TimerBus.TimersAreIndependent` | cstimer.cpp:236-251 | each timer of the vector sends its target, or the parent if it has none, as many events as it would alone, and no other client any |
| `TimerBus.FiresInVectorOrder` | cstimer.cpp:236-251 | timers that fire for one client at the same tick report in the order of the vector |
| `TimerBus.LogGrows` | cstimer.cpp:233-253 | the events of earlier ticks come before those of later ones |
| `TimerBus.EventsInQueue` | cstimer.cpp:233-253 | over n ticks a running periodic timer adds to its client's queue exactly the number of events of the closed form, whatever other timers share the vector and the client |
| `TimerThread.TimerObject.constructor` | cstimer.cpp:46-49 | a new timer is stopped |
| `TimerThread.TimerObject.Start` | cstimer.cpp:68-73 | the timer is running, with value and interval kept |
| `TimerThread.TimerObject.Stop` | cstimer.cpp:75-80 | the timer is not running, with value and interval kept |
| `TimerThread.TimerObject.SetValue` | cstimer.cpp:82-86 | only the remaining value changes |
| `TimerThread.TimerObject.SetInterval` | cstimer.cpp:92-96 | only the interval changes |
| `TimerThread.TimerObject.Extend` | cstimer.cpp:102-106 | the remaining value grows by the argument |
| `TimerThread.TimerObject.GetRemaining` | cstimer.cpp:117-124 | the remaining value |
| `TimerThread.Thread.AddTimer` | cstimer.cpp:214-219 | the timer joins the vector at its end |
| `TimerThread.Thread.RemoveTimer` | cstimer.cpp:221-231 | the timer is gone from the vector, the others keep their order, and an unknown timer changes nothing |
| `TimerThread.Thread.Tick` | cstimer.cpp:233-253 | one pass over the timer objects leaves timers and bus as the specified tick does |
| `NetlinkFrames.WindowsAreSound` | csnetlink.cpp:321-353 | on arbitrary bytes the visited windows are inside the buffer, 4-aligned, disjoint, in order, at least a header long, and at most length / 16 in number |
| `NetlinkFrames.WindowsShowMessages` | csnetlink.cpp:325-326 | what is visited is exactly what the windows cut out of the buffer |
| `NetlinkFrames.VisitsEveryFrame` | csnetlink.cpp:321-353 | the walk visits exactly the frames of any concatenation of padded frames, in order, also with some or all of the last padding missing |
| `NetlinkThread.ParsesTheFields` | csnetlink.cpp:321-353 | a message with length, type, flags, sequence number and sender in 4, 2, 2, 4 and 4 bytes, least significant first, is taken for exactly that type and number, as a part of many if and only if the flag 2 is set |
| `NetlinkThread.EveryFrameHasBytes` | csnetlink.cpp:321-353 | every type, flags, number, sender and payload in range has such a message |
| `NetlinkThread.BufferIsItsFrames` | csnetlink.cpp:321-353 | a buffer of padded frames is routed as exactly the messages with the fields of each frame, in order, also with some or all of the last padding missing |
| `NetlinkThread.GoesOnExactlyIf` | csnetlink.cpp:325-326 | the walk visits a message if and only if a whole header is left that announces at least 16 bytes and no more than are left |
| `NetlinkRouter.QueryGetsItsReplies` | csnetlink.cpp:269-313 | over any later issues, kernel messages and GetReply calls, a query whose number no pending query has is handed exactly the messages with its number that are neither route nor NOOP, in order, up to and including the first terminal one, and is dispatched once for each |
| `NetlinkRouter.TwinSteals` | csnetlink.cpp:290-313 | if a pending query has the same number, it takes the reply meant for the new one |
| `NetlinkRouter.ServedIfAndOnlyIfUnique` | csnetlink.cpp:192-313 | a new query is served correctly in every continuation if and only if no pending query has its number when it is issued |
| `NetlinkRouter.WatchGetsEveryRoute` | csnetlink.cpp:274-284 | over any run, a route watch is handed every route message since it registered, once and in order, and is dispatched once for each |
| `NetlinkRouter.NumbersIncrease` | csnetlink.cpp:215-246 | with clock values of 32 bits, over every run: accepted queries never have number 0, rejected ones always do, and pending accepted queries stand in the table in the order of reset count and number |
| `NetlinkRouter.OneMatch` | csnetlink.cpp:290-295 | a message matches at most one pending accepted query between two resets, and never an accepted and a rejected one |
| `NetlinkRouter.QueriesServedBeforeReset` | csnetlink.cpp:192-313 | from the start of the thread until the numbers are first reset, every accepted query gets exactly its replies |
| `NetlinkRouter.TwinsAreOld` | csnetlink.cpp:245-246 | a pending query can have the number of a new accepted one if and only if it was accepted before the last reset and has that number |
| `NetlinkRouter.ServedInEveryEpoch` | csnetlink.cpp:192-313 | over the whole life of the thread an accepted query gets exactly its replies in every continuation if and only if no query still pending from before the last reset has its number |
| `NetlinkRouter.RouteAnswerIsLost` | csnetlink.cpp:273-284 | a route query is handed nothing for a route message that carries its number |
| `NetlinkRouter.RejectedQueryIsAnswered` | csnetlink.cpp:227-231 | a rejected query is handed a message with number 0 |
| `NetlinkRouter.AcceptsTheTypes` | csnetlink.cpp:217-232 | the accepted query types are 18, 22 and so on in steps of four up to 46 |
| `NetlinkRouter.NumberAgainstClock` | csnetlink.cpp:245-246 | an accepted query's number is the one after the last if that is more than 86400 below the clock, and 1 if not |
| `NetlinkRouter.NoNumberUsed` | csnetlink.cpp:199-232 | a rejected query or a watch uses up no number and has number 0 |
| `NetlinkRouter.NumbersCountUp` | csnetlink.cpp:192-251 | with at most k accepted queries, each issued when the clock is above k + 86400, they are numbered 1, 2, 3 and so on in the order of issue, over any interleaving |
| `NetlinkRouter.CountedQueriesAreServed` | csnetlink.cpp:192-313 | under these conditions the n-th accepted query has number n and gets exactly its replies in every continuation |
| `NetlinkRouter.ReadsDrain` | csnetlink.cpp:76-90 | successive reads take the listed replies of an event one by one, oldest first, and touch nothing else |
| `NetlinkRouter.WatchesInTableOrder` | csnetlink.cpp:276-283 | a route message is announced to the route watches in the order of the table |
| `NetlinkBus.PostAllProjects` | csnetlink.cpp:282-298 | of any dispatches of the thread, a client is pushed exactly those addressed to it, in order |
| `NetlinkBus.QueueGrowsByPosts` | csnetlink.cpp:282-298 | the queue of an enabled client grows by the events addressed to it, in order, marked with the thread as sender |
| `NetlinkBus.NetRunLog` | csnetlink.cpp:192-313 | however the thread interleaves with any other bus operations, each client's queue goes through exactly the queue operations of the run, among which the pushes by the thread are the posts addressed to that client, in order |
| `NetlinkBus.RepliesReachTheSender` | csnetlink.cpp:192-313 | over any such interleaving, among the queue operations of the run the thread pushes a query's event, turned round, to the client that sent it exactly once for each message the query is to get |
| `NetlinkBus.RoutesReachTheWatcher` | csnetlink.cpp:274-284 | over any such interleaving, among the queue operations of the run the thread pushes a watch's event to the client that sent it exactly once for each later route message |
| `NetlinkBus.QueueGrowsByReplies` | csnetlink.cpp:269-313 | while the thread works alone, each reply to a query adds the query's event at the end of the sender's queue, in the order of the dispatches |
| `NetlinkThread.Thread.constructor` | csnetlink.cpp:100-103 | a new thread has nothing pending |
| `NetlinkThread.Thread.ProcessEvent` | csnetlink.cpp:192-251 | registering an event numbers it as specified, turns it round so that its sender becomes its target, and appends it to the table |
| `NetlinkThread.Thread.SendToWatches` | csnetlink.cpp:274-284 | the loop gives a route message to the route watches in table order and leaves the bus as the dispatches of their events to their senders do |
| `NetlinkThread.Thread.FindAwaiting` | csnetlink.cpp:290-295 | the search finds the first pending query with the number |
| `NetlinkThread.Thread.SendNetlinkReply` | csnetlink.cpp:269-319 | the object routes one message as the specified router does and dispatches each event that got it to its sender, in order |
| `NetlinkThread.Thread.ProcessNetlinkMessage` | csnetlink.cpp:321-353 | on any received buffer the cursor loop routes exactly the messages of the walk, in order, and the bus changes by exactly the dispatches they cause |
| `NetlinkThread.Thread.GetReply` | csnetlink.cpp:76-90 | the oldest listed reply is returned and is no longer listed, or none is returned if the list is empty |
| `StateStore.PutSorted` | csplugin.cpp:145 | assignment keeps the map's entries in key order |
| `StateStore.PutFind` | csplugin.cpp:285-294 | after state[key] = value the key reads that value and every other key what it read before |
| `StateStore.LessMeans` | csplugin.cpp:160-161 | the map iterates in dictionary order: the first differing byte decides, and a prefix comes first |
| `StateStore.FileLayout` | csplugin.cpp:149-185 | a saved file is the number of entries in eight bytes, least significant first, then for each entry with a non-empty key the key's length in eight bytes, the key, the value's length and the value, in order and without gaps |
| `StateStore.ReadsWhatIsThere` | csplugin.cpp:101-146 | a record is read if and only if it stands in the file whole and with a non-empty key |
| `StateStore.LoadsTheCount` | csplugin.cpp:90-99 | the first eight bytes say how many records to read, and a shorter file loads as empty |
| `StateStore.ReadBack` | csplugin.cpp:101-146 | a written record is read back exactly, whatever follows it |
| `StateStore.LoadOverwritten` | csplugin.cpp:149-185 | loading what was saved over an old file gives the saved entries with a non-empty key, and reads one record from the old file's remains exactly when there was an empty key |
| `StateStore.RoundTrip` | csplugin.cpp:78-185 | for every state and every previous file content, even a longer one, saving and loading restores the state if and only if no key is empty |
| `StateStore.StaleRecordIsRead` | csplugin.cpp:154-163 | with an empty key, a record of the old file that starts where the new text ends is read into the state, over a value just saved if it has that key |
| `StateStore.RecordsRead` | csplugin.cpp:101-146 | a file yields at most one record for every 17 bytes, whatever count it claims |
| `StateStore.CountIsBounded` | csplugin.cpp:90-146 | a claimed count beyond the records present changes nothing |
| `StateStore.LoadedIsWellFormed` | csplugin.cpp:101-146 | loading any bytes keeps the entries in order and never yields an empty key |
| `StateStore.LoadIsStable` | csplugin.cpp:78-185 | whatever bytes a file holds, saving what was loaded from it over any file and loading again gives the same state |
| `StateStore.CutRecord` | csplugin.cpp:103-142 | a record cut anywhere is refused, not misread |
| `StateStore.LoadPrefix` | csplugin.cpp:90-146 | loading any prefix of a saved file gives exactly the first written entries that are whole in it, for every state |
| `PluginState.OpenRefines` | csplugin.cpp:64-76 | opening any file is a good start for the store |
| `PluginState.StoreRefines` | csplugin.cpp:78-294 | over any sets, saves over the same file and loads from it, the store agrees with a map with a snapshot after every step if and only if no save finds a variable under the empty key |
| `PluginState.EmptyKeyIsLost` | csplugin.cpp:101-146 | no load yields a variable under the empty key, so what was set there is lost |
| `PluginState.LastSetWins` | csplugin.cpp:230-294 | until it is set again, a variable keeps the value set last through every save and later load, whatever the file held before, as long as no save finds a variable under the empty key |
| `PluginState.TypedReads` | csplugin.cpp:187-294 | each typed read returns what the matching set stored; a number is not read as a float nor a float as a number |
| `PluginState.AbsentIsNotRead` | csplugin.cpp:187-228 | no read finds a key that no entry has |
| `PluginState.ReadsTheEntry` | csplugin.cpp:187-228 | a number is read if and only if the entry has eight bytes, a float if and only if it has four, a text always, and a raw read gets as many first bytes as there are and fit |
| `PluginState.StateFile.Read` | csplugin.cpp:114-119 | exactly the next n bytes, or failure if fewer are left |
| `PluginState.StateFile.Write` | csplugin.cpp:164-183 | the bytes replace those at the cursor, and what lies beyond stays |
| `PluginState.Plugin.LoadState` | csplugin.cpp:78-147 | the state is what the decoder makes of the file's bytes; without a file nothing changes; the file keeps its content |
| `PluginState.Plugin.LoadLoop` | csplugin.cpp:101-146 | the record loop reads from the cursor as the decoder does |
| `PluginState.Plugin.SaveState` | csplugin.cpp:149-185 | the file becomes the encoding of the state followed by what the old file had beyond it |
| `PluginState.Plugin.WriteRecord` | csplugin.cpp:162-183 | four writes add the encoding of one record |
| `PluginState.Plugin.SetStateVar` | csplugin.cpp:230-294 | from then on the key reads the stored value, every other key reads what it read before, and the map keeps its order |
| `PluginFilter.TrimTrims` | csmain.cpp:512-517 | trimming removes exactly the spaces around a piece |
| `PluginFilter.SplitPieces` | csmain.cpp:494-508 | the pieces are exactly the maximal stretches of the text without a bar |
| `PluginFilter.FilterMeaning` | csmain.cpp:492-526 | a name is in the parsed filter if and only if it is a trimmed, non-empty piece of the text and not the plugin's own name ignoring case |
| `PluginFilter.SameNameMeans` | csmain.cpp:518 | two names count as the same if and only if they are equal but for the case of letters, up to a NUL |
| `PluginFilter.SplitText` | csmain.cpp:494-508 | the scan loop finds the pieces, all but an empty last one |
| `PluginFilter.TrimPiece` | csmain.cpp:514-517 | the two searches find the trimmed piece |
| `PluginFilter.ParseEventFilter` | csmain.cpp:492-526 | the loop collects the names of the specified filter, in order |
| `PluginFilter.WantsMeaning` | csmain.cpp:544-553 | a plugin wants an event if and only if some text of its filter names the source and the source does not bear its own name; no plugin wants its own events |
| `PluginFilter.NotAddressed` | csmain.cpp:548-560 | a client that is no subscriber is left alone |
| `PluginFilter.OneCloneEach` | csmain.cpp:544-561 | a subscriber gets exactly one clone if it is loaded and its filter lists the source, however often, and nothing otherwise |
| `PluginFilter.RoutedExactlyIfNamed` | csmain.cpp:492-561 | for all filter texts and plugins, loaded or not: one clone if the plugin is loaded, some trimmed piece is the source's name ignoring case and the plugin does not bear that name, otherwise none |
| `PluginDispatch.Listed` | csmain.cpp:550-553 | the inner loop finds out whether the filter lists the source |
| `PluginDispatch.DispatchPluginEvent` | csmain.cpp:544-561 | the nested loops leave the bus as the specified fan-out does |
| `HexDump.LineCount` | csutil.cpp:178-222 | a dump has one line per sixteen bytes or part of them |
| `HexDump.LabelReadsBack` | csutil.cpp:186-191 | a line's label reads back as its address if and only if the address is below 2^20 |
| `HexDump.LabelShowsLeading` | csutil.cpp:186-191 | a label shows the leading five digits of the address, in lower case |
| `HexDump.LabelsAreAddresses` | csutil.cpp:186-191 | in a dump of up to 2^20 bytes, line k is labelled 16k |
| `HexDump.DumpReadsBack` | csutil.cpp:178-222 | reading the hex columns in order gives back the dumped bytes, for every buffer |
| `HexDump.TextShown` | csutil.cpp:193-203 | the text column shows each printable byte as itself and every other as a dot |
| `HexDump.ByteShown` | csutil.cpp:197-198 | the two digits of each byte stand at their column in upper case |
| `HexDump.LineFrame` | csutil.cpp:205-220 | a line is five digits, a colon and two blanks, 49 columns blank but for the digits of the bytes, a blank, the text and a line end |
| `HexDump.AddByte` | csutil.cpp:193-214 | one byte adds its columns, and the gap after the eighth, to the line buffers; no append is cut short |
| `HexDump.WriteHexDump` | csutil.cpp:178-222 | the loop over the bounded line buffers prints exactly the specified lines |

## Left out

- The widths of event ids and flags: flags are four booleans, other bits are ignored; flags do not change while an event is queued.
- csEventNetlink::Clone, which throws: netlink events are taken as persistent, never sticky and never broadcast. The one object of a query that is queued several times is modelled as equal values.
- What a clone of a csEventTimer or a user-defined event drops when csEvent::Clone copies the base class only; a timer event is never sticky or broadcast here.
- A timer whose target pointer equals the broadcast pseudo-address.
- Overflow of time_t in timers: values are unbounded integers.
- The timer constructor's registration with the timer thread is a separate call of AddTimer; csThreadTimer::Entry and the real-time signal are a stream of Tick calls.
- Reading event_enable without a lock: enable calls are atomic steps like any other.
- `EventBus.Step`: a dispatch, broadcast included, is one atomic step there and in the timer, netlink and routing results; BroadcastSteps models the operations that can fall between the pushes of a broadcast (csevent.cpp:182-185), for shutdown, queue order and ownership.
- PopWait models one consumer per client, and a client that stays enabled.
- EventPopWait's computation of the absolute deadline: a time-out may happen at any moment of the wait.
- Creation and teardown of the static mutexes, and OpenSSL's lock table: the registry and timer-vector mutexes exist for the whole run.
- csMain::Run as a whole: its stopping condition and its release of events are stated in ClientQueue and EventBus.
- Sockets, sendmsg and recvmsg: kernel messages are an arbitrary input stream, buffers are shorter than 2^32 - 3 bytes.
- The header-sized tail that AddReply copies beyond a message: a reply is the bytes its header announces.
- Issuing the same netlink event object twice.
- `StateStore.RoundTrip`: sizes and counts are those a size_t of eight bytes can hold, stored little-endian, as on the usual 64-bit targets; allocation failure for huge claimed lengths and read or write errors other than the end of the file are not modelled.
- `LockOrder.CallIsDisciplined`: the destructor of a client clears its queue without the queue mutex (csevent.cpp:109-111), and event_enable and the timer's interval getter are read without a lock; these accesses are not part of the lock model.
- `PluginState.TypedReads`: a float is an opaque value of four bytes; the GetStateVar overloads are functions, since they only look up and test a size.
- The order in which DispatchPluginEvent visits its subscribers is that of pointer values; the model takes any order. The "event_source" value it adds to the event is part of the event's data.
- `HexDump.WriteHexDump`: the length stays below 2^32 - 1, where the 32-bit loop counter of the source would wrap; characters are those of the C locale.
- ValidateConfiguration, which only logs names that no plugin bears; it changes no state.
- XML configuration and its tag handlers: they run inside expat's callbacks, which are not part of the repository.
- Command line, daemonising, signal set-up, logging bodies, dlopen, sockets, users and groups, SHA1 and regular expressions: each passes its arguments on to the operating system or a library and keeps no state of its own.
- The hex converters, whose result outside plain hex digits is that of sscanf, and the stack-size adjustment, which depends on the system's limits.
