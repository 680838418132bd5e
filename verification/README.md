# Endpoint protocols of vsomeip, modelled and verified in Dafny

This project models four stateful parts of vsomeip's endpoint code and proves what they promise
for every input, every run and every reachable state. `dafny verify dfyconfig.toml` checks it.

1. **The nPDU train scheduler of the client endpoint.** Messages board the current train; a train
   that cannot take the next message is parked in a time-ordered map; a dispatch timer moves one
   train at a time to the output queue; a completed write pops it. `TrainScheduler.dfy` is the
   state machine, `TrainBoarding.dfy` says what a single `send` does, `TrainConservation.dfy`,
   `TrainMemory.dfy`, `TrainFifo.dfy`, `TrainDeadline.dfy`, `TrainStarvation.dfy`,
   `TrainFeeding.dfy`, `TrainSegmentation.dfy`, `TrainPunctuality.dfy` and `TrainDebounce.dfy` are
   the theorems about its runs, and `ClientEndpoint.dfy` has the objects with shared buffers that
   are proved to compute it.
2. **The local endpoint.** A connection state machine with a send stream, one write at a time,
   bounded reconnects, flushing and a cleanup handler that is called once. `LocalEndpoint.dfy`
   has the steps, `LocalEndpointProofs.dfy` and `LocalEndpointProgress.dfy` the theorems,
   `LocalEndpointObject.dfy` the object.
3. **The endpoint manager.** The handover between live and pending routing endpoints
   (`RoutingHandover.dfy`, `RoutingTable.dfy`) and the client endpoints shared between remote
   services (`RemoteClients.dfy`, `RemoteClientsProofs.dfy`, with the nested tables of
   `EndpointTables.dfy` and the object of `EndpointManager.dfy`).
4. **The port allocators.** Specific and ranged client ports (`ClientPorts.dfy`,
   `PortDelivery.dfy`, `PortRounds.dfy`, `PortAllocator.dfy`) and the server ports of guests
   (`GuestPorts.dfy`, `GuestAllocator.dfy`).

Reading guide:

- A section that the code runs under a mutex is one step. Callbacks, timers and posted actions are
  later steps that may come at any time, so a theorem over runs covers every interleaving.
- Fields marked as history record what happened (accepted messages, handed buffers, stopped
  endpoints). They are not part of the program and no step depends on them.
- Time is an integer number of nanoseconds, read once per operation. The steady clock never goes
  back. Sizes, ports and unsigned subtractions are modelled with their width where it matters.
- A punctual timer fires at its expiry. Time passes an expiry only while firing makes no difference,
  which happens exactly when a train is starved; `TimeMovesOn` shows that time never gets stuck.
- Timings per method, the socket's outcomes, whether a peer is allowed, whether the configuration
  is still alive, the order of hash maps and the result of segmentation are arbitrary.

The model follows the code. Where a property holds only under a condition, or the code differs
from its documentation, this is stated and proved:

- The transition list in the header of the local endpoint lacks INIT -> FAILED, which
  `trigger_error` causes (`StepFollowsEdge`, `EdgeIsTaken`).
- A comment says that the caller of `find_specific_port` must not fall back to generic ports.
  `get_client_port` does (`ClientPortAnswers`, `GetClientPort`).
- Acceptance order is not kept if a debounce or retention time exceeds a retention time, be it that
  of another method (`FifoExactly`).
- A message waits for the least debounce time on its train only if no debounce time exceeds the
  retention time of the same method (`DebouncedExactly`).
- An empty current train that is due earlier than all parked trains blocks them until the next
  message, and their messages miss their deadlines (`DeadlineExactly`, `SegmentedDeadlineExactly`,
  `QueuedLate`). This takes a debounce or retention time that exceeds the retention time of a method
  with segmentation, or that of any other method by more than six hours.
- A client port range that ends at 0xFFFF, which is also what an entry without client ports gets,
  hides free ports of the ranges behind it (`DeliversExactly`, `UncoveredFails`).
- A guest range that starts at 0xFFFF becomes the range of all ports when the routing host port
  is even (`CorrectIsSubrange`).

## Model

| member | source | states |
|---|---|---|
| `TrainPunctuality.DeadlineExactly` | implementation/endpoints/src/client_endpoint_impl.cpp:184-274 | the deadline theorem: in every unsegmented run with a punctual timer every message was queued, or can still be queued, no later than its boarding time plus its retention time or, if its train was parked, the larger of that and the last departure at parking plus the least debounce time on its train, if and only if no debounce or retention time exceeds any retention time by more than six hours |
| `TrainPunctuality.SegmentedDeadlineExactly` | implementation/endpoints/src/client_endpoint_impl.cpp:783-806 | the deadline theorem with segmentation enabled for an arbitrary set of methods: in every run with a punctual timer, in which only oversized messages of these methods are cut, into segments of their own method that fit, all messages are in time if and only if no debounce or retention time exceeds the retention time of an enabled method, or that of any other method by more than six hours |
| `TrainPunctuality.TimeMovesOn` | implementation/endpoints/src/client_endpoint_impl.cpp:349-391 | no run is stuck in time: every punctual run, segmented or not and with any timings, can be continued by finitely many firings to where a step at any given later time is punctual |
| `TrainPunctuality.SettlesExactly` | implementation/endpoints/src/client_endpoint_impl.cpp:349-391 | under the same condition, and only then, every such run reaches, by finitely many firings at its current time, a state in which no expiry is due; otherwise some run keeps firing at one instant for ever |
| `TrainPunctuality.QueuedLate` | implementation/endpoints/src/client_endpoint_impl.cpp:356-370 | the miss: once time has passed the departure of a starved train, the next accepted message has it queued after it was due and after the promise to one of its messages |
| `TrainPunctuality.StarvedIsLate` | implementation/endpoints/src/client_endpoint_impl.cpp:349-391 | every punctual run that starves a train can be continued by firings alone to a missed deadline |
| `TrainPunctuality.SegmentedNeverStarvedExactly` | implementation/endpoints/src/client_endpoint_impl.cpp:283-326 | under the same condition, and only then, no such run starves a train |
| `TrainPunctuality.RunTimer` | implementation/endpoints/src/client_endpoint_impl.cpp:881-909 | in every punctual run a timer is armed while a message is held, and it has expired only while a train is starved |
| `TrainDeadline.TimelyIsInTime` | implementation/endpoints/src/client_endpoint_impl.cpp:349-391 | in every run, with stale timer handlers and early flushes too, everything is in time as long as the clock has not passed an armed expiry |
| `TrainDeadline.RunDeadline` | implementation/endpoints/src/client_endpoint_impl.cpp:349-391 | as long as the clock has not passed an armed expiry, the expiry is never later than the departure of a held train that carries messages, and everything queued or written was on time; every such run is legal for the other theorems |
| `TrainDeadline.FlushTakesLeast` | implementation/endpoints/src/client_endpoint_impl.cpp:349-391 | `flush` queues nothing, or one entry that was due no later than the current train and than any parked train |
| `TrainDeadline.FlushQueues` | implementation/endpoints/src/client_endpoint_impl.cpp:349-391 | `flush` appends exactly the first parked train if its key is not later than the current departure, otherwise the current train, and nothing if that one is empty |
| `TrainDeadline.ArmTimerArms` | implementation/endpoints/src/client_endpoint_impl.cpp:881-909 | if no held train is overdue, arming leaves an expiry that none of the trains with messages precedes |
| `TrainFifo.FifoExactly` | implementation/endpoints/src/client_endpoint_impl.cpp:208-260 | acceptance order is kept in every unsegmented run if and only if no debounce or retention time exceeds any retention time |
| `TrainFifo.UniformFifoExactly` | implementation/endpoints/src/client_endpoint_impl.cpp:208-260 | with one debounce time D and one retention time R for all messages this is the case if and only if D <= R |
| `TrainFifo.RunFifo` | implementation/endpoints/src/client_endpoint_impl.cpp:329-338 | under that condition, in every unsegmented run, written entries, queue, parked trains in map order and current train read in this order list the accepted messages in order; parked keys never exceed the current departure |
| `TrainFifo.OrderIsLost` | implementation/endpoints/src/client_endpoint_impl.cpp:329-338 | for any method with D > R there is a run of three of its messages in which the third overtakes the second |
| `TrainFifo.OrderIsLostByRetention` | implementation/endpoints/src/client_endpoint_impl.cpp:234-246 | for any two methods with different retention times there is a run in which a train with a later message leaves before the first message |
| `TrainFifo.ByteStream` | implementation/endpoints/src/client_endpoint_impl.cpp:533-551 | under the condition of `FifoExactly` the bytes written, queued, parked and on the current train are the accepted messages, byte for byte, in order |
| `TrainConservation.RunConserved` | implementation/endpoints/src/client_endpoint_impl.cpp:184-391 | for arbitrary timings, in every run, the multiset of accepted messages is the sum of those on the current train, on parked trains, in the queue and written, with nothing added, lost or doubled, also across segmentation |
| `TrainConservation.ExactlyOnePlace` | implementation/endpoints/src/client_endpoint_impl.cpp:248-260 | in every run each accepted message is in exactly one of current train, parked trains, queue and written entries |
| `TrainConservation.RunWellFormed` | implementation/endpoints/src/client_endpoint_impl.cpp:208-268 | in every run all trains are well-formed: pairwise different (service, method) passengers, buffer equal to the messages in boarding order and at most the maximal size, departure of a non-empty current train equal to the least boarding time plus retention, parked trains under strictly ascending keys equal to their departures, and a queue size that is the sum of the queued buffers |
| `TrainConservation.StepKeeps` | implementation/endpoints/src/client_endpoint_impl.cpp:184-551 | every single step keeps all of this |
| `TrainConservation.DistinctPairs` | implementation/endpoints/src/client_endpoint_impl.cpp:212-217 | two passengers of a well-formed train never have the same service and method |
| `TrainConservation.MinDeadlineIsLeast` | implementation/endpoints/src/client_endpoint_impl.cpp:208-240 | the least deadline by which departures are stated is a lower bound of all passengers' deadlines and attained by one of them |
| `TrainConservation.ParkInserts` | implementation/endpoints/src/client_endpoint_impl.cpp:329-338 | parking inserts the train at one place of the map order and leaves all other trains as they were |
| `TrainConservation.ParkIndexSplits` | implementation/endpoints/src/client_endpoint_impl.cpp:329-338 | the trains in front of that place are exactly those that do not depart later, so trains with equal departures stay in the order of parking |
| `TrainConservation.PopFirstLaws` | implementation/endpoints/src/client_endpoint_impl.cpp:359-368 | taking a parked train removes the front train of the least key and nothing else |
| `TrainConservation.PrepareKeeps` | implementation/endpoints/src/client_endpoint_impl.cpp:208-246 | whichever branch `send` takes, the train the message boards can hold it: no passenger of the same method, and room within the maximal size |
| `TrainConservation.PrepareDeparture` | implementation/endpoints/src/client_endpoint_impl.cpp:208-246 | the departure of that train is the least of the deadlines of its passengers and of the new message |
| `TrainConservation.FlushMoves` | implementation/endpoints/src/client_endpoint_impl.cpp:349-391 | `flush` neither loses nor creates messages and leaves the total of queued and held bytes unchanged |
| `TrainConservation.SendSegmentsConserves` | implementation/endpoints/src/client_endpoint_impl.cpp:283-326 | segmentation accounts for every segment and for the train it parks |
| `TrainConservation.WriteDoneKeeps` | implementation/endpoints/src/client_endpoint_impl.cpp:533-551 | a completed write keeps the queue size exact, starts the next write if there is one, and never changes an entry that was handed over |
| `TrainBoarding.BoardsExactly` | implementation/endpoints/src/client_endpoint_impl.cpp:208-246 | who shares a train: without segmentation an accepted message boards the waiting train, and nothing is parked, if and only if no passenger is of its method, the bytes fit, its debounce time is at most every retention time on board, now plus its debounce time is at most every boarding time plus retention time, and its retention time is at least the least debounce time on board; otherwise it gets a train of its own |
| `TrainBoarding.BoardsWithin` | implementation/endpoints/src/client_endpoint_impl.cpp:208-260 | the same in all well-formed states, with the minima that segments may have lowered while the train was empty; otherwise exactly the waiting train is inserted among the parked ones, and in both cases queue and written entries stay as they are |
| `TrainBoarding.BoardsEmpty` | implementation/endpoints/src/client_endpoint_impl.cpp:210-211 | an accepted message boards an empty train, which is then due after its retention time, and nothing is parked |
| `TrainBoarding.AcceptsExactly` | implementation/endpoints/src/client_endpoint_impl.cpp:184-204 | in every run `send` accepts a message if and only if it fits into a train or is cut into segments, and the bytes of all messages accepted and not yet written, together with it, are within the limit or there is none |
| `TrainBoarding.SendAnswers` | implementation/endpoints/src/client_endpoint_impl.cpp:184-204 | a refused message changes nothing but the time |
| `TrainBoarding.SegmentsAreQueued` | implementation/endpoints/src/client_endpoint_impl.cpp:283-326 | segments are appended to the queue at once, in order, each as an entry of its own with the separation time, and accepted in order; a write is in progress and the timer is left alone |
| `TrainBoarding.SegmentsParkTrain` | implementation/endpoints/src/client_endpoint_impl.cpp:283-326 | a train with passengers is parked with its minima lowered, before an empty one due within the segments' retention time; of an empty train only the minima are lowered |
| `TrainBoarding.LastDepartureIsLastWrite` | implementation/endpoints/src/client_endpoint_impl.cpp:533-551 | in every run the time from which debounce floors are measured is that of the last completed write |
| `TrainMemory.MemoryBound` | implementation/endpoints/src/client_endpoint_impl.cpp:809-841 | in every unsegmented run with a finite limit, queued bytes plus the bytes of all trains stay within the limit, and the queue size field equals the queued bytes |
| `TrainMemory.RunBounded` | implementation/endpoints/src/client_endpoint_impl.cpp:809-841 | with segmentation the excess over the limit is at most what the segments' headers added to the messages they were cut from |
| `TrainMemory.LimitCheckExact` | implementation/endpoints/src/client_endpoint_impl.cpp:809-841 | the check on wrapping 64-bit sums accepts a message if and only if the true sum is within the limit or there is none |
| `TrainMemory.RunCounted` | implementation/endpoints/src/client_endpoint_impl.cpp:858-869 | in every run the bytes that the limit check counts are those of the messages accepted and not yet written |
| `TrainFeeding.NeverStarvedExactly` | implementation/endpoints/src/client_endpoint_impl.cpp:349-391 | with a punctual timer, a parked train is never starved by an empty current train that is due earlier, in any unsegmented run, if and only if no debounce or retention time exceeds any retention time by more than six hours |
| `TrainFeeding.RunFed` | implementation/endpoints/src/client_endpoint_impl.cpp:283-326 | under the condition of `SegmentedDeadlineExactly` no punctual run passes an armed expiry or starves a train; no parked train is later than an empty train could be due after a message accepted now, nor than six hours after the current train, nor, if that one is empty, than its departure |
| `TrainFeeding.NoneOrAll` | implementation/endpoints/src/client_endpoint_impl.cpp:783-806 | the condition with no method enabled is the one without segmentation, and with all methods enabled the one of `FifoExactly` |
| `TrainFeeding.FiringProgresses` | implementation/endpoints/src/client_endpoint_impl.cpp:349-391 | under that condition a timer that fires while any message is held moves one train with messages to the queue |
| `TrainStarvation.StarvedUntilSend` | implementation/endpoints/src/client_endpoint_impl.cpp:349-391 | once a parked train is starved, no sequence of timer firings and completed writes releases it; only a new message does |
| `TrainStarvation.StarvedSpins` | implementation/endpoints/src/client_endpoint_impl.cpp:881-909 | a firing at or after the empty train's departure changes nothing but arms the timer for the same instant again |
| `TrainStarvation.StarveStarves` | implementation/endpoints/src/client_endpoint_impl.cpp:329-338 | for any two methods that violate the condition there is a punctual unsegmented run that starves a train |
| `TrainStarvation.SpinsExactly` | implementation/endpoints/src/client_endpoint_impl.cpp:356-382 | firing an expired timer changes nothing but to arm it for the same instant exactly if a train is starved and the empty current train is due |
| `TrainSegmentation.RunEven` | implementation/endpoints/src/client_endpoint_impl.cpp:283-326 | if no debounce or retention time exceeds any retention time, no legal run starves a train, with any segmentation and with stale timer handlers |
| `TrainSegmentation.SegmentsStarve` | implementation/endpoints/src/client_endpoint_impl.cpp:283-326 | for any method with a debounce or retention time above the retention time of an oversized message there is a punctual run in which that message, cut into any segments that start with one of its own method, starves a train of the former |
| `TrainDebounce.DebouncedExactly` | implementation/endpoints/src/client_endpoint_impl.cpp:218-243 | with a punctual timer and no segmentation, every message waits on its train for at least the least debounce time on board, in every run, if and only if no debounce time exceeds the retention time of the same method |
| `TrainDebounce.FloorsAreKept` | implementation/endpoints/src/client_endpoint_impl.cpp:329-338 | under that condition, in every such run, a parked train is in addition not queued before the last completed write at its parking plus its least debounce time |
| `TrainDebounce.RunDebounce` | implementation/endpoints/src/client_endpoint_impl.cpp:208-260 | in every such run the least deadline on every train leaves each passenger the least debounce time on board, and the timer is never armed earlier than the next departure |
| `TrainDebounce.LeavesEarly` | implementation/endpoints/src/client_endpoint_impl.cpp:208-211 | any method with a debounce time above its retention time leaves an empty train too early, with a single message |
| `TrainDebounce.FirstDebounceCheckIsRedundant` | implementation/endpoints/src/client_endpoint_impl.cpp:218-233 | without segmentation, a debounce time above the least retention time on board always exceeds the train's departure too, so the first of the two debounce checks decides nothing |
| `ClientEndpoint.TrainObject.Reset` | implementation/endpoints/include/buffer.hpp:35-41 | a reset train owns a new buffer, so a buffer that was queued is never written again, and its other fields are those of a fresh train |
| `ClientEndpoint.TrainObject.Board` | implementation/endpoints/src/client_endpoint_impl.cpp:248-260 | boarding changes only the train and its own buffer, to the abstract train with the message appended |
| `ClientEndpoint.Endpoint.Send` | implementation/endpoints/src/client_endpoint_impl.cpp:184-274 | `send` on the heap object, with its shared buffers, computes the state of the state machine and accepts exactly when that does |
| `ClientEndpoint.Endpoint.Step` | implementation/endpoints/src/client_endpoint_impl.cpp:184-551 | one event on the heap object is one event of a legal run, so every theorem about legal runs holds of every object |
| `ClientEndpoint.Endpoint.PrepareTrain` | implementation/endpoints/src/client_endpoint_impl.cpp:208-246 | the nested checks of `send` leave the train that the state machine prepares; a parked train is no longer aliased by the current one |
| `ClientEndpoint.Endpoint.SendSegments` | implementation/endpoints/src/client_endpoint_impl.cpp:283-326 | the loop over segments queues them in order, with sizes summed up, and parks the current train only if it has passengers |
| `ClientEndpoint.Endpoint.ScheduleTrain` | implementation/endpoints/src/client_endpoint_impl.cpp:329-338 | the insertion into the ordered map of lists is the one of the state machine, at the raised departure |
| `ClientEndpoint.Endpoint.Flush` | implementation/endpoints/src/client_endpoint_impl.cpp:349-391 | `flush` on the heap computes the state of the state machine; the train taken is queued with the very buffer it had |
| `ClientEndpoint.Endpoint.Fire` | implementation/endpoints/src/client_endpoint_impl.cpp:645-650 | the timer handler is one flush step of the state machine |
| `ClientEndpoint.Endpoint.WriteDone` | implementation/endpoints/src/client_endpoint_impl.cpp:533-551 | the success path of the send callback is the write step of the state machine |
| `ClientEndpoint.Endpoint.QueueTrain` | implementation/endpoints/src/client_endpoint_impl.cpp:843-855 | queueing hands over the train's buffer object itself and starts a write only if none is in progress |
| `ClientEndpoint.Endpoint.GetPendingTrainSize` | implementation/endpoints/src/client_endpoint_impl.cpp:858-869 | the nested summing loop yields the bytes of the current and of all parked trains |
| `ClientEndpoint.Endpoint.CheckQueueLimit` | implementation/endpoints/src/client_endpoint_impl.cpp:809-841 | the check decides by the bytes queued plus the bytes pending |
| `ClientEndpoint.Endpoint.StartDispatchTimer` | implementation/endpoints/src/client_endpoint_impl.cpp:881-909 | the timer is armed for the earlier of the first parked train and the current one, at the earliest for now |
| `ClientEndpoint.ParkAt` | implementation/endpoints/src/client_endpoint_impl.cpp:329-338 | inserting at the first index whose key is not smaller is what the ordered map does |
| `LocalEndpointProofs.StreamRefinement` | implementation/endpoints/src/local_endpoint.cpp:159-265 | in every state of every run the buffers handed to the socket followed by the send queue are the accepted bytes in order, at most one write is outstanding, and the queue is within a finite limit |
| `LocalEndpointProofs.HandOver` | implementation/endpoints/src/local_endpoint.cpp:365-397 | a step hands over nothing or the whole non-empty queue, and the latter only when the endpoint is started and connected and no write is outstanding |
| `LocalEndpointProgress.QueueGoesOn` | implementation/endpoints/src/local_endpoint.cpp:365-397 | queued data goes on: in every sound run, once the endpoint was started before being connected or the posted part of its start has run, it has a write outstanding whenever it is connected with queued data |
| `LocalEndpointProgress.WrittenGoesOn` | implementation/endpoints/src/local_endpoint.cpp:487-497 | a completed write on an open connection hands over exactly the data queued meanwhile as one buffer, or ends the sending |
| `LocalEndpointProgress.TwoWritesSuffice` | implementation/endpoints/src/local_endpoint.cpp:487-497 | wherever such an endpoint is connected, at most two completions later every byte accepted so far is with the socket and no write is outstanding |
| `LocalEndpointProgress.NotBeforeStart` | implementation/endpoints/src/local_endpoint.cpp:365-372 | in every run, until the endpoint is started nothing is handed to the socket and everything accepted is queued |
| `LocalEndpointProgress.AcceptsExactly` | implementation/endpoints/src/local_endpoint.cpp:159-265 | a command or batch is accepted, and its bytes appended, if and only if the endpoint is not flushing, the bytes fit into queue and limit, and no command is too large |
| `LocalEndpointProofs.ChecksAreExact` | implementation/endpoints/src/local_endpoint.cpp:166-188 | as long as the queue is within the limit, the checks with wrapping unsigned subtraction accept exactly the sizes that fit, so no subtraction ever wraps |
| `LocalEndpointProofs.RunInv` | implementation/endpoints/src/local_endpoint.cpp:93-509 | stream, limit, handler and attempt invariants hold in every state of every run, with stale callbacks and timers at any time |
| `LocalEndpointProofs.StepFollowsEdge` | implementation/endpoints/src/local_endpoint.cpp:133-157 | every step stays in its state or follows the transition graph: the documented one and in addition INIT -> FAILED |
| `LocalEndpointProofs.EdgeIsTaken` | implementation/endpoints/include/local_endpoint.hpp:119-128 | every edge of that graph is the last step of some run from an initial state, so none can be dropped |
| `LocalEndpointProofs.Lifecycle` | implementation/endpoints/src/local_endpoint.cpp:399-474 | over whole runs, STOPPED is final, FAILED leads only to STOPPED, and CONNECTED is not entered again once it was left |
| `LocalEndpointProofs.BoundedAttempts` | implementation/endpoints/src/local_endpoint.cpp:457-473 | with a finite maximum, a run goes from INIT to CONNECTING at most once more often than the maximum |
| `LocalEndpointProofs.AttemptsAreConnects` | implementation/endpoints/src/local_endpoint.cpp:267-304 | the connects counted are exactly the INIT -> CONNECTING steps of the run |
| `LocalEndpointProgress.GivesUpExactly` | implementation/endpoints/src/local_endpoint.cpp:457-473 | in every run a connect error outside of a flush fails the endpoint if and only if connecting was tried once more than the maximum; otherwise the endpoint goes back to INIT |
| `LocalEndpointProgress.TriedToTheEnd` | implementation/endpoints/src/local_endpoint.cpp:457-473 | a peer that is never reached is tried the maximum number of times and once more, and the endpoint fails with the last error and not before |
| `LocalEndpointProgress.PhasesExactly` | implementation/endpoints/src/local_endpoint.cpp:399-509 | for every step and phase, the phase is entered if and only if one of the listed causes holds |
| `LocalEndpointProofs.CleanupOnce` | implementation/endpoints/src/local_endpoint.cpp:133-157 | no registered cleanup handler is called twice in any run |
| `LocalEndpointProofs.HandlerCalls` | implementation/endpoints/src/local_endpoint.cpp:374-397 | a step calls at most the handler that is registered; without error only when flushing has handed over every accepted byte and no write is outstanding, with error only when the endpoint has failed or flushes while waiting for a reconnect |
| `LocalEndpointProgress.CallsExactly` | implementation/endpoints/src/local_endpoint.cpp:374-397 | a step calls the registered handler if and only if it fails the endpoint or flushes it in INIT (with error), or a flush finds nothing left to send (without); only a registration sets a handler, and only a flush of a started endpoint that is neither failed nor stopped sets the flushing flag |
| `LocalEndpointProofs.ConnectsOnlyIfAdmitted` | implementation/endpoints/src/local_endpoint.cpp:411-444 | an endpoint becomes connected only out of CONNECTING, and to any other peer than the routing host only if that is allowed |
| `LocalEndpointProofs.RunWriting` | implementation/endpoints/src/local_endpoint.cpp:374-397 | in every state of every run in which writes are not aborted under an open connection, a connected endpoint has the sending flag set exactly while one write is outstanding |
| `LocalEndpointProofs.FlushTerminates` | implementation/endpoints/src/local_endpoint.cpp:662-679 | in every such run, after a started and connected endpoint with a cleanup handler starts flushing, at most two writes complete successfully before a stop, the handler has been called with the second one at the latest, and until it is called a write is outstanding |
| `LocalEndpointProofs.AbortedWriteBlocksFlush` | implementation/endpoints/src/local_endpoint.cpp:488-509 | what the restriction on aborted writes excludes, and the code does not bring about: an abort under an open connection would leave the sending flag set, and a flush would then call the handler in no run without error or stop |
| `LocalEndpointProofs.BatchRefinement` | implementation/endpoints/src/local_endpoint.cpp:238-265 | if a batch is accepted, then so is every one of its commands when they are sent one by one instead, and both ways put the same bytes on the stream |
| `LocalEndpointProofs.BuildCollects` | implementation/endpoints/include/local_endpoint.hpp:77-104 | a batch holds the concatenation of its commands and the size of the largest one |
| `LocalEndpointProofs.EmptyBatchIsAccepted` | implementation/endpoints/src/local_endpoint.cpp:238-241 | a batch of empty commands is accepted in any state, even while flushing, and changes nothing |
| `LocalEndpointObject.CommandBatch.Append` | implementation/endpoints/include/local_endpoint.hpp:80-96 | the in-place buffer and maximum stay those of all commands added so far |
| `LocalEndpointObject.Endpoint.Send` | implementation/endpoints/src/local_endpoint.cpp:159-236 | the chain of early returns accepts exactly when the state machine does and otherwise changes nothing |
| `LocalEndpointObject.Endpoint.SendBatch` | implementation/endpoints/src/local_endpoint.cpp:238-265 | the batch overload is the batch step, and accepts an empty batch without a look at the state |
| `LocalEndpointObject.Endpoint.SendBuffer` | implementation/endpoints/src/local_endpoint.cpp:374-397 | the buffer is moved out and the queue left empty, or the handler is called without error when flushing has nothing left |
| `LocalEndpointObject.Endpoint.Escalate` | implementation/endpoints/src/local_endpoint.cpp:133-157 | an endpoint that is not yet failed or stopped fails and its handler is moved out and called with error |
| `LocalEndpointObject.Endpoint.Connect` | implementation/endpoints/src/local_endpoint.cpp:267-304 | only an endpoint in INIT whose configuration is alive starts to connect |
| `LocalEndpointObject.Endpoint.ConnectCallback` | implementation/endpoints/src/local_endpoint.cpp:399-474 | each outcome of connecting is the corresponding step, with the counter advanced only for a finite maximum |
| `LocalEndpointObject.Endpoint.SendCallback` | implementation/endpoints/src/local_endpoint.cpp:488-509 | each outcome of writing is the corresponding step; an aborted one does nothing |
| `LocalEndpointObject.Endpoint.StartFlushing` | implementation/endpoints/src/local_endpoint.cpp:662-679 | flushing starts as in the state machine, with the handler called at once while waiting for a reconnect |
| `LocalEndpointObject.Endpoint.Step` | implementation/endpoints/src/local_endpoint.cpp:93-509 | one event on the object is one step of a run from an initial state, so every theorem about runs holds of every object |
| `LocalEndpointObject.WaitForWrite` | implementation/endpoints/src/local_endpoint.cpp:318-342 | the wait of `stop` sleeps exactly while a write is outstanding without error, at most eleven times, and loses data only on error or after all of them |
| `RoutingHandover.HandoverSafety` | implementation/endpoints/src/endpoint_manager_impl.cpp:1230-1368 | in every reachable state each endpoint handed in is exactly one of live, pending and stopped, none is stopped twice, and only a client whose live endpoint was asked to fail has a pending one |
| `RoutingHandover.StartedAndReportedOnce` | implementation/endpoints/src/endpoint_manager_impl.cpp:1258-1274 | each endpoint is started exactly if it is or was live, once; when no report is outstanding, exactly the started ones have been reported, once each; only started ones are stopped without error |
| `RoutingHandover.StopsExactly` | implementation/endpoints/src/endpoint_manager_impl.cpp:1286-1368 | a step stops an endpoint if and only if it is a newer one of the same client while that endpoint is pending, a removal of its client while it is live, a drop of its address while it is pending, or the final clean-up |
| `RoutingHandover.FailsExactly` | implementation/endpoints/src/endpoint_manager_impl.cpp:1230-1318 | a step asks an endpoint to fail if and only if it drops its address while it is live, adds an endpoint of its client while it is live, or installs an endpoint and the scan finds it |
| `RoutingHandover.InstallFails` | implementation/endpoints/src/endpoint_manager_impl.cpp:1301-1311 | an installation finds an endpoint to fail if and only if another live one has the same known peer, and finds such a one |
| `RoutingHandover.GracefulExactly` | implementation/endpoints/src/endpoint_manager_impl.cpp:1357-1368 | only the final clean-up stops without error, and exactly the live endpoints |
| `RoutingHandover.NewestWins` | implementation/endpoints/src/endpoint_manager_impl.cpp:1328-1355 | the newest endpoint of a client stays live or pending through all steps that are not about it and becomes live when the one before it is removed |
| `RoutingHandover.RemovePromotes` | implementation/endpoints/src/endpoint_manager_impl.cpp:1340-1346 | a removal always installs the pending endpoint, as the comment in the code claims, and touches no other client's entry |
| `RoutingHandover.RunInv` | implementation/endpoints/src/endpoint_manager_impl.cpp:1230-1368 | the bookkeeping invariants hold in every reachable state, whichever occupant of an address the scan meets first |
| `RoutingTable.Table.FindOccupant` | implementation/endpoints/src/endpoint_manager_impl.cpp:1301-1311 | the scan in any order finds a live endpoint with the same peer exactly if there is one |
| `RoutingTable.Table.AddUnlocked` | implementation/endpoints/src/endpoint_manager_impl.cpp:1286-1318 | the in-place update is the step of the protocol, and reports installation exactly if the client had no live endpoint |
| `RoutingTable.Table.Add` | implementation/endpoints/src/endpoint_manager_impl.cpp:1258-1274 | adding is one step, keeps the invariant of the protocol as all public sections do, and a report becomes due exactly if the endpoint was installed |
| `RoutingTable.Table.Remove` | implementation/endpoints/src/endpoint_manager_impl.cpp:1328-1355 | removing is one step, and a report becomes due exactly for the promoted endpoint |
| `RoutingTable.Table.DropFrom` | implementation/endpoints/src/endpoint_manager_impl.cpp:1230-1256 | both loops together, in any order of iteration and with erasure while iterating, are one step |
| `RoutingTable.Table.Clear` | implementation/endpoints/src/endpoint_manager_impl.cpp:1357-1368 | all endpoints are stopped once, only the live ones without error, and both maps are emptied |
| `RemoteClientsProofs.SharedIndex` | implementation/endpoints/src/endpoint_manager_impl.cpp:403-509 | in every reachable state the index holds exactly the endpoints that some remote service uses, and each of them only at the place given by its remote address and port, its protocol and its users' partition |
| `RemoteClientsProofs.StopsWithLastUser` | implementation/endpoints/src/endpoint_manager_impl.cpp:440-505 | a step orders the stop of an endpoint if and only if it takes away its last user |
| `RemoteClientsProofs.StoppedOnce` | implementation/endpoints/src/endpoint_manager_impl.cpp:499-505 | each endpoint that was created is indexed, about to be stopped or stopped, exactly one of them, and stopped at most once |
| `RemoteClientsProofs.LocalPortsAreUnique` | implementation/endpoints/src/endpoint_manager_impl.cpp:957-1088 | in every reachable state no two endpoints in use or about to be stopped go to the same remote address and port over the same protocol from the same configured local port |
| `RemoteClientsProofs.SharesEndpoint` | implementation/endpoints/src/endpoint_manager_impl.cpp:991-1046 | a new user of a remote endpoint that is in use within its partition gets the same client endpoint and nothing is created |
| `RemoteClientsProofs.SharesExactly` | implementation/endpoints/src/endpoint_manager_impl.cpp:991-1046 | in every reachable state two remote services have the same client endpoint if and only if theirs go to the same address and port over the same protocol and the services are in the same partition |
| `RemoteClientsProofs.PartitionsSeparate` | implementation/endpoints/src/endpoint_manager_impl.cpp:1010-1030 | remote services that are configured for different partitions never share a client endpoint |
| `RemoteClientsProofs.FindsExactly` | implementation/endpoints/src/endpoint_manager_impl.cpp:991-1046 | a known user gets its endpoint again and nothing changes; a request for any major gets none |
| `RemoteClientsProofs.CreatesExactly` | implementation/endpoints/src/endpoint_manager_impl.cpp:1048-1098 | an endpoint that is created goes to the address and port known for the user, over its protocol, from a local port that is configured for the user and unused, or from port 0 exactly if none is configured; it is entered for the user and in the index; if the socket fails or all configured ports are used, nothing is created and only cursors may move |
| `RemoteClientsProofs.CreateMovesCursors` | implementation/endpoints/src/endpoint_manager_impl.cpp:1070-1074 | a creation leaves its local port as the cursor of the specific ports, or of a range that holds it, and the cursors of the other protocol as they were |
| `RemoteClientsProofs.ClearsExactly` | implementation/endpoints/src/endpoint_manager_impl.cpp:433-449 | a removal takes away exactly the entry of its target; used ports, information and cursors stay as they are |
| `RemoteClientsProofs.TargetsExactly` | implementation/endpoints/src/endpoint_manager_impl.cpp:419-430 | a removal is for the user itself, unless it is for any major, there is no entry of that name and there are other majors; then it is for one of those |
| `RemoteClientsProofs.CreatesAsInformed` | implementation/endpoints/src/endpoint_manager_impl.cpp:1060-1068 | an endpoint that is created after the remote service information has changed goes to the new address and port, and none is created without information |
| `RemoteClientsProofs.UsedWhileHeld` | implementation/endpoints/src/endpoint_manager_impl.cpp:505-505 | in every reachable state a configured local port is marked as used towards a remote endpoint if and only if an endpoint in use or about to be stopped has it |
| `RemoteClientsProofs.AllocateIsFree` | implementation/endpoints/src/endpoint_manager_impl.cpp:1070-1074 | a port that is handed to a new endpoint is neither marked as used nor the illegal one, unless it is 0 |
| `RemoteClientsProofs.RunInv` | implementation/endpoints/src/endpoint_manager_impl.cpp:403-509 | index, lifetime and port invariants hold in every reachable state, while the service information changes arbitrarily |
| `EndpointTables.ErasedEndpoint` | implementation/endpoints/src/endpoint_manager_impl.cpp:472-490 | erasing through four levels of maps, with empty ones removed, removes one entry of the flat index and no other |
| `EndpointTables.InsertedEndpoint` | implementation/endpoints/src/endpoint_manager_impl.cpp:1087-1088 | inserting through four levels adds one entry and changes no other |
| `EndpointTables.ErasedService` | implementation/endpoints/src/endpoint_manager_impl.cpp:431-438 | erasing a protocol of a service, and the service with its last one, removes one user and no other |
| `EndpointTables.InsertedPort` | implementation/endpoints/src/endpoint_manager_impl.cpp:968-973 | marking a port changes the used set of one remote endpoint and protocol only |
| `EndpointTables.ErasedPort` | implementation/endpoints/src/endpoint_manager_impl.cpp:975-989 | releasing a port changes that set only, and does nothing if there is none |
| `EndpointManager.Manager.Find` | implementation/endpoints/src/endpoint_manager_impl.cpp:991-1046 | the lookup through the nested tables finds or shares an endpoint as the step does |
| `EndpointManager.Manager.Create` | implementation/endpoints/src/endpoint_manager_impl.cpp:1048-1100 | the creation, with the port taken from the allocator object of the protocol, is the step, including all ways to fail |
| `EndpointManager.Manager.FindOrCreate` | implementation/endpoints/src/endpoint_manager_impl.cpp:100-118 | both under one lock are one step, and keep the invariants |
| `EndpointManager.Manager.HasOtherUser` | implementation/endpoints/src/endpoint_manager_impl.cpp:443-449 | the scan answers whether any other service is reached through the endpoint |
| `EndpointManager.Manager.FindTarget` | implementation/endpoints/src/endpoint_manager_impl.cpp:419-430 | a request for any major that is not listed itself falls back to a listed one of the same service instance if there is one |
| `EndpointManager.Manager.Unlist` | implementation/endpoints/src/endpoint_manager_impl.cpp:403-500 | the locked section is the step, and yields the endpoint exactly if it has no user left |
| `EndpointManager.Manager.Finish` | implementation/endpoints/src/endpoint_manager_impl.cpp:501-509 | port and endpoint are released as in the step |
| `EndpointManager.Manager.Clear` | implementation/endpoints/src/endpoint_manager_impl.cpp:403-509 | run without interruption, clearing stops an endpoint exactly if the user was its only one, and keeps the invariants |
| `ClientPorts.FindPortFinds` | implementation/configuration/src/configuration_impl.cpp:3181-3237 | for any value of the cursors, the search ends with an unused port of a range that matches the remote port, and without one only if all ports of all matching ranges are used |
| `PortDelivery.DeliversExactly` | implementation/configuration/src/configuration_impl.cpp:3181-3237 | for one remote port, in every run of calls from fresh cursors with any used ports, the search yields a usable port exactly when a matching range has a free one, if and only if the ranges in front of the first matching one that ends at 0xFFFF offer all usable ports |
| `PortDelivery.DeliversEverywhereExactly` | implementation/configuration/src/configuration_impl.cpp:3181-3237 | the same for runs of calls for any remote ports, for all remote ports at once, when every entry behind a range that ends at 0xFFFF has all or none of its remote ports matched by it |
| `PortDelivery.UncoveredFails` | implementation/configuration/src/configuration_impl.cpp:3217-3235 | if a usable port is offered only from the first range that ends at 0xFFFF on, the first or second call from fresh cursors ends with the illegal port although that port is free |
| `PortDelivery.UnshieldedFails` | implementation/configuration/src/configuration_impl.cpp:3191-3202 | without the premise on remote ports it can fail although all ports are covered: a run from fresh cursors in which calls for a second remote port let the cursor of an entry without client ports be pushed up to 0xFFFE |
| `PortDelivery.BelowDelivers` | implementation/configuration/src/configuration_impl.cpp:3181-3237 | while no matching range ends at 0xFFFF the search delivers for all values of the cursors |
| `PortDelivery.CallDelivers` | implementation/configuration/src/configuration_impl.cpp:3181-3237 | one call with quiet cursors delivers and leaves them quiet |
| `ClientPorts.FindPortSearches` | implementation/configuration/src/configuration_impl.cpp:3181-3237 | two passes with moving cursors are one search for the first free port of a list: what lies behind the cursors, then all matching ranges |
| `ClientPorts.SpecificIsNext` | implementation/configuration/src/configuration_impl.cpp:3239-3302 | the port found is the free configured port that a 16-bit counter started at the cursor meets first; there is none exactly if all configured ports are used |
| `ClientPorts.RoundRobin` | implementation/configuration/src/configuration_impl.cpp:3255-3287 | with no port in use, as many calls as there are ports return every port exactly once, in cyclic order from behind the cursor |
| `ClientPorts.ClientPortAnswers` | implementation/configuration/src/configuration_impl.cpp:2856-2892 | the answer is an unused candidate, from a range only if all ports of the service instance are used; 0 exactly if nothing is configured; failure exactly if something is and every candidate is used |
| `PortRounds.AllocatesInTurn` | implementation/configuration/src/configuration_impl.cpp:2856-2892 | round robin over whole allocations: with no port in use, as many allocations for a service instance as it has specific ports answer each of them once, in cyclic order from behind the cursor |
| `PortRounds.SpecificCursor` | implementation/configuration/src/configuration_impl.cpp:3238-3287 | an allocation takes a free specific port if there is one, leaves it as the cursor of its entry and moves no other cursor; if all are used the cursor goes back to the begin |
| `ClientPorts.SpecificPortsAre` | implementation/configuration/src/configuration_impl.cpp:3238-3250 | the specific ports are those of the first entry for the service instance, and none if there is no such entry |
| `PortRounds.RangeAllocatesInTurn` | implementation/configuration/src/configuration_impl.cpp:2856-2892 | with no port in use, allocations for a remote port with one range answer its ports in turn, each the one above the one before, and the first after the last |
| `PortRounds.RangeIsNext` | implementation/configuration/src/configuration_impl.cpp:3181-3236 | with one range for the remote port the search answers the first free port from behind the cursor on, and then from the begin of the range, and leaves it as the cursor |
| `PortRounds.AllocationMarks` | implementation/configuration/src/configuration_impl.cpp:2856-2892 | an allocation without a free specific port leaves the port it answers as the cursor of a range that holds it, and the cursors for other remote ports alone |
| `PortAllocator.Scan` | implementation/configuration/src/configuration_impl.cpp:3204-3211 | the loop with a 16-bit counter terminates and finds the first unused port of a range, also for ranges that end at 0xFFFF |
| `PortAllocator.Clients.FindPort` | implementation/configuration/src/configuration_impl.cpp:3181-3237 | the three loops over the configured clients, with cursors moved in place, compute port and cursors of the specification |
| `PortAllocator.Clients.ResumeEntry` | implementation/configuration/src/configuration_impl.cpp:3189-3211 | for one client the double increment, the wrap at 0xFFFF and the scan leave the specified cursor |
| `PortAllocator.Clients.FindClient` | implementation/configuration/src/configuration_impl.cpp:3148-3158 | the first client configured for the service instance is found, if there is one |
| `PortAllocator.Clients.FindSpecificPort` | implementation/configuration/src/configuration_impl.cpp:3239-3302 | both partial scans compute port and cursor of the specification; the cursor is reset when nothing is free |
| `PortAllocator.Clients.GetClientPort` | implementation/configuration/src/configuration_impl.cpp:2856-2892 | the combination falls back from specific to generic ports as the code does |
| `GuestPorts.CorrectIsSubrange` | implementation/configuration/src/configuration_impl.cpp:708-747 | a corrected range has an even number of ports and the host port's parity, and lies within the configured range if and only if that does not start at 0xFFFF for an even host port, in which case it becomes the range of all ports |
| `GuestPorts.CorrectIsLargest` | implementation/configuration/src/configuration_impl.cpp:708-747 | no larger part of the configured range has both properties |
| `GuestPorts.ServerPairs` | implementation/endpoints/src/endpoint_manager_base.cpp:242-272 | a server port r that is handed out is unused and has the host port's parity; r and r + 1 lie in one configured range (unless that wraps) and neither is the host port |
| `GuestPorts.PairsAreDisjoint` | implementation/endpoints/src/endpoint_manager_base.cpp:242-272 | for any two different server ports r and q handed out under one host port, {r, r + 1} and {q, q + 1} have no port in common, even when the ranges overlap |
| `GuestPorts.NoServerPort` | implementation/endpoints/src/endpoint_manager_base.cpp:258-271 | no port is handed out if and only if every server port of every range is used or is the host port |
| `GuestPorts.LowestOfFirst` | implementation/endpoints/src/endpoint_manager_base.cpp:258-271 | the server port handed out is the lowest free one of the first range that has a free one |
| `GuestPorts.MostSpecificWins` | implementation/configuration/src/configuration_impl.cpp:2926-2949 | a guest gets the ranges of the most specific entry that fits its user and group, the user counting more |
| `GuestPorts.NoRangesIfNoneFits` | implementation/configuration/src/configuration_impl.cpp:2926-2949 | a guest that no entry fits gets no ranges |
| `GuestAllocator.Routing.CorrectSet` | implementation/configuration/src/configuration_impl.cpp:714-746 | collecting invalid ranges and replacements and exchanging them afterwards replaces every range by its correction |
| `GuestAllocator.Routing.CorrectGuests` | implementation/configuration/src/configuration_impl.cpp:708-747 | the ranges of all users and groups are corrected in place |
| `GuestAllocator.IterationIsCorrected` | implementation/configuration/src/configuration_impl.cpp:708-747 | in any order of iteration, the ranges searched are corrections of configured ranges |
| `GuestAllocator.GetLocalServerPort` | implementation/endpoints/src/endpoint_manager_base.cpp:242-272 | the nested loops return the first server port that is unused and not the host port |
| `GuestAllocator.CreateAcceptor` | implementation/endpoints/src/endpoint_manager_base.cpp:81-131 | whatever the outcomes of binding, the search ends; every attempt is for the first server port not yet found in use; it listens on the first port that binds and connects from the port above; it fails only when no server port is left or the time to wait is used up |
| `GuestAllocator.NotTriedAgain` | implementation/endpoints/src/endpoint_manager_base.cpp:91-118 | no port is tried again after it was found in use |

## Left out

- Sockets, acceptors, timers of the I/O library, netlink, Unix domain sockets and systemd activation: effects only; a socket is a source of completions with any outcome.
- The reconnect, error and stop paths of the client endpoint, and sending while it is not connected: run theorems are about runs without them. Writes are handed over as if the endpoint were established.
- SOME/IP-TP splitting and reassembly, and the receive path: a split message is an arbitrary list of segments.
- The conversion of JSON to ranges, ports and timings: models start from parsed values. Loaded guest ranges are in order and without port 0, as the loader makes them.
- Security checks, credentials and service discovery rules: their result is an arbitrary boolean.
- `service_instances_`, the service information of the routing manager, multicast and server endpoints: they do not influence what is proved.
- Replacement ports after a bind error: local ports are those given at creation.
- 64-bit overflow of time points: times are unbounded integers.
- Logging, status output, suspend and resume, magic cookies and tracing: easy or effects only.
- The reads of the clock within one operation: a train created by `send` or `reset` gets the time of the operation.
- `local_endpoint`'s receive handling, assignment and partial-message timeouts: their errors are the escalation step, which may come at any time.
- The wait loop of `stop` is a method of its own; what other threads do while it sleeps is given by what it sees when it looks again.
- RemoteClientsProofs.LocalPortsAreUnique: does not cover local port 0, which means a port chosen by the operating system.
- ClientPorts.ClientPortAnswers: assumes configured ports in 1 .. 0xFFFE; `DeliversExactly` says what happens otherwise.
- RemoteClientsProofs.CreatesExactly: when exactly an endpoint is created is stated for configured ports in 1 .. 0xFFFE; from which port is stated for all.
- PortRounds.AllocatesInTurn: assumes specific ports other than 0xFFFF, which stands for no port.
- PortDelivery.DeliversEverywhereExactly: for entries behind a range that ends at 0xFFFF whose remote ports are matched by it in part, only one half is stated (`UncoveredFails`), because the other half does not hold there in general (`UnshieldedFails`).
- LocalEndpointProofs.FlushTerminates: is about runs in which no write is aborted under an open connection, because the sockets are closed only by a stop, by a failed connect and on destruction.
- TrainPunctuality.SegmentedDeadlineExactly: if segmentation is enabled for a method, assumes a queue limit with room for the smallest oversized message and two messages of four bytes, because without that room the oversized message is refused.
- TrainPunctuality.SegmentedNeverStarvedExactly: the same.
- TrainPunctuality.SettlesExactly: the same.
- TrainBoarding.AcceptsExactly: assumes that the bytes accepted and not yet written are fewer than 2^64.
- TrainMemory.RunBounded: assumes that limit and segmentation overhead together fit into 64 bits.
- GuestAllocator.CreateAcceptor: the time to wait between attempts is positive, as configured at build time.
- EndpointManager.Manager.Clear: runs both sections without another thread in between; `RunInv` covers every interleaving of the sections.
