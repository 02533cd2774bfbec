# Verified model of the distributed disk

The repository is a network block device whose blocks are mirrored on remote minions, on top
of a small concurrent runtime: a thread pool fed by a waitable priority queue, a select
reactor, a dispatcher/callback pair, a double-checked singleton and an asynchronous logger.
This project models the runtime and the block layer in Dafny and proves what they guarantee
over every run.

`dafny verify dfyconfig.toml` checks everything.

## How it is modelled

Code that several threads run at once is a step machine: a state, labels for the atomic
actions (one critical section, one access to an atomic, one call that changes another
thread), `Enabled` and `Apply`, and runs as sequences of labels. A theorem about all runs is
therefore about every interleaving of any number of threads. Code that one thread runs is
imperative: classes with the fields and loops of the original, proved against functions.
Whatever the code cannot decide (the order in which a hash map is walked, how much one write
transfers, what a handler does, which message is lost) is a parameter or a nondeterministic
choice, so that a result holds for all of them.

- `Counting`: counting the entries of a map that satisfy a predicate.
- `ThreadPool`, `ThreadPoolInvariant`, `ThreadPoolPause`, `ThreadPoolResize`,
  `ThreadPoolDrain`, `ThreadPoolTrace`, `ThreadPoolDepartures`: workers, the controller calling Run, Pause and Resize, any threads
  calling Add, and the thread that buries workers which ate a poison apple.
- `WaitableQueue`, `WaitableQueueMonitor`: the queue as a monitor with a wait set, and the
  object whose methods are its critical sections. The pool uses it as an atomic queue.
- `Broadcast`, `Dispatching`: which subscriptions a re-entrant broadcast visits; the linked
  objects.
- `Reactor`, `ReactorTrace`: the listener, one batch of handler calls, and the loop; what handlers
  do, told from their actions.
- `Singleton`, `Logger`: two small step machines.
- `Blocks`, `Placement`, `Mirror`: the block, the arithmetic of placement, mirrored commands.
- `Datagrams`: what a minion makes of the datagrams a write sends.
- `ReplyStream`: partial transfers, the reply lock, and what a client decodes.

## What the proofs found

These are properties of the code as it stands, each with its exact condition.

- A paused pool lets a worker take a user task under some schedule if and only if one is
  queued, some worker is free, and either fewer pills and apples are queued than workers are
  free or a user entry is queued with the reserved priority or above. Pause establishes the
  opposite for user priorities up to HIGH; growing the pool by Resize while paused, or adding a
  user entry with the reserved priority, breaks it.
- Resize(n) settles at n threads if and only if no apple was outstanding when it was called:
  Resize(0) and then Resize(1) on a pool of one can settle at none. The apples can all be
  consumed if and only if no more are outstanding than there are threads: two calls of Resize(0)
  on a pool of one leave an apple that nobody will eat.
- After Run's notification a worker can be found asleep, until the next Pause, if and only if it
  was between reading the flag and waiting when the notification was sent.
- A wake-up is lost exactly when a woken consumer is interrupted before it takes the mutex, while
  another waits and no more consumers are woken than elements are queued.
- Subscribing a callback keeps the links sound if and only if it is free or already attached
  to the same dispatcher.
- A handler that throws leaves the reactor's pending list behind, and the next Run calls
  those keys whether or not they are ready. The first turn of a Run is certain to call only
  ready keys if and only if nothing was left pending or nothing is registered. Contrary to the
  comment in `projects/fs_project/reactor/reactor.hpp:31`, Run does not return when all
  descriptors are removed; the model follows the code.
- A broadcast notifies a node if and only if no handler called before its turn removed it and
  none removed the node it was itself called for.
- Every minion is the primary of some block if and only if the number of minions is odd; with
  the configured two minions every primary is minion 0.
- A read of the mirrored array answers the latest write or zeros, and the latest write if and
  only if the replica that answers ever found room for the offset, or that write is zeros: a
  write refused for lack of space on the first replica is lost although the second holds it.
- A read's block directly follows its header in the stream if and only if no other Reply took
  the lock in between. Two reads can interleave as header, header, block, block; the client then
  decodes them if and only if the first block reads the same with the second header in front of
  it as behind it.
- As written, WriteCmd sends the request header alone
  (`projects/fs_project/commands/write_command.cpp:50`). A minion takes the next datagram, the
  header of the retry, as the block, and a header without a retry swallows the next request. A
  write is served as sent, whatever the buffers held, if and only if its block is the next
  datagram; the mirroring results are about requests delivered so.

## Model

| member | source | states |
|---|---|---|
| ThreadPoolInvariant.KeepsInv | projects/fs_project/thread_pool/thread_pool_impl.cpp:31-202 | every step of every thread keeps: the thread map holds exactly the live workers except one being inserted under the map lock; the ids reported to the angel are exactly the parked or dead workers, each once; every queue entry is in exactly one place; no entry is started twice |
| ThreadPoolInvariant.ReachableInv | projects/fs_project/thread_pool/thread_pool_impl.cpp:68-202 | that invariant holds in every state reachable from the constructor |
| ThreadPoolInvariant.TaskConservation | projects/fs_project/thread_pool/thread_pool_impl.cpp:92-156 | each entry ever added is queued, held by exactly one worker, or finished, and only one of these; its holder does what was added and has started it exactly when past the interruption point; none was cut short by an interruption; the executions are of distinct entries |
| ThreadPoolInvariant.AngelBuriesOnlyTheParked | projects/fs_project/thread_pool/thread_pool_impl.cpp:129-145 | the angel's lookup never fails, it interrupts only workers parked in an apple, every erase removes one registered dead worker, and no id waits twice |
| ThreadPoolPause.CoverStep | projects/fs_project/thread_pool/thread_pool_impl.cpp:55-108 | while paused, queued pills and apples minus free workers changes only by +1 for each pill or apple inserted and -1 for each thread spawned |
| ThreadPoolPause.PauseIsSafe | projects/fs_project/thread_pool/thread_pool_impl.cpp:104-108 | from the return of Pause until Run, in every interleaving and with user priorities at most HIGH, no worker takes a user task, provided Resize spawns no more threads than the cover allows |
| ThreadPoolPause.NewPoolIsPaused | projects/fs_project/thread_pool/thread_pool_impl.cpp:68-82 | the same from construction until the first Run |
| ThreadPoolPause.PauseLeaksIff | projects/fs_project/thread_pool/thread_pool_impl.cpp:55-108 | in any reachable paused state some schedule of workers and angel takes a user task if and only if one is queued, a worker is free, and binding entries are fewer than free workers or a user entry has the reserved priority or above |
| ThreadPoolPause.GapLeaks | projects/fs_project/thread_pool/thread_pool_impl.cpp:147-156 | the constructive half: in such a state, whatever the priorities, a schedule that takes a user task exists |
| ThreadPoolResize.TargetStep | projects/fs_project/thread_pool/thread_pool_impl.cpp:158-202 | threads in the map less outstanding apples, corrected for work the controller still owes, is changed by no step except a Resize call, which sets it to n less the apples outstanding |
| ThreadPoolResize.ResizeSettles | projects/fs_project/thread_pool/thread_pool_impl.cpp:158-202 | once Resize(n) returned and apples drained the pool has n threads less those outstanding at the call, so exactly n if and only if there were none |
| ThreadPoolResize.ConstructorSettles | projects/fs_project/thread_pool/thread_pool_impl.cpp:68-82 | a pool built with n threads and never resized has exactly n whenever no call is in progress |
| ThreadPoolTrace.TakesTheHighestIff | projects/fs_project/thread_pool/thread_pool_impl.cpp:147-156 | after every run an idle worker can take a ticket if and only if, by the labels, it was inserted, not yet taken, and no other such ticket was inserted with a higher priority |
| ThreadPoolTrace.EveryPopIsHighest | projects/fs_project/waitable_queue/pq_wrapper_impl.hpp:8-12 | in every run, what is taken is the highest of what is queued at that moment |
| ThreadPoolTrace.LeavesInOrder | projects/fs_project/waitable_queue/pq_wrapper_impl.hpp:8-12 | while nothing is inserted, entries leave in non-increasing priority and nothing that stays outranks one that left |
| ThreadPoolTrace.ExecutesWhatWasAdded | projects/fs_project/thread_pool/thread_pool_impl.cpp:92-96 | a worker inside a user task took its ticket last, and the insertion with that ticket was the Add of that task |
| ThreadPoolTrace.NothingStartsTwice | projects/fs_project/thread_pool/thread_pool_impl.cpp:147-156 | the tickets that workers begin to execute, read off the labels, are distinct |
| ThreadPoolTrace.PillsAreCounted | projects/fs_project/thread_pool/thread_pool_impl.cpp:104-127 | the constructor inserts n pills and each Pause exactly one for each thread in the map when it reads the size |
| ThreadPoolTrace.BuriedInOrder | projects/fs_project/thread_pool/thread_pool_impl.cpp:129-145 | workers are erased in the order in which they reported, none left out |
| ThreadPoolDrain.AngelIsNeverStuck | projects/fs_project/thread_pool/thread_pool_impl.cpp:129-145 | in every reachable state an angel holding an id has its next step enabled, or that of the worker it joins, or that of the thread holding the map lock |
| ThreadPoolDrain.ControllerIsNeverStuck | projects/fs_project/thread_pool/thread_pool_impl.cpp:98-202 | between calls the controller can make any call, and within one it always has a step |
| ThreadPoolDrain.RunMissesOnlyTheCommitted | projects/fs_project/thread_pool/thread_pool_impl.cpp:55-62 | while the flag is RUN no worker newly commits to sleep: whoever is asleep later had already read PAUSE |
| ThreadPoolDrain.NotificationMissesIff | projects/fs_project/thread_pool/thread_pool_impl.cpp:98-102 | after the notification nobody is asleep, and some run without Pause leaves a worker asleep if and only if it was between reading PAUSE and waiting |
| ThreadPoolDrain.CanDrain | projects/fs_project/thread_pool/thread_pool_impl.cpp:129-177 | with the flag RUN and as many threads as apples, a schedule of workers and angel alone that consumes every apple exists |
| ThreadPoolDrain.PoolSettlesIff | projects/fs_project/thread_pool/thread_pool_impl.cpp:158-202 | such a schedule exists if and only if no more apples are outstanding than there are threads, and each one ends with exactly threads less apples |
| ThreadPoolDepartures.NewPoolOfOneIsReachable | projects/fs_project/thread_pool/thread_pool_impl.cpp:68-82 | the starting state of the runs below is what the constructor leaves |
| ThreadPoolDepartures.ReservedPriorityEscapes | projects/fs_project/thread_pool/thread_pool.hpp:28-34 | a user entry added with the reserved priority leaks from a paused pool although every free worker is covered |
| ThreadPoolDepartures.GrowthEscapes | projects/fs_project/thread_pool/thread_pool_impl.cpp:192-202 | growing a paused pool, which inserts no pills, reaches a paused state from which a user task is taken |
| ThreadPoolDepartures.ResizeCanUndershoot | projects/fs_project/thread_pool/thread_pool_impl.cpp:158-202 | a run in which Resize(1) on a pool of one, called after Resize(0), settles at no thread |
| ThreadPoolDepartures.RepeatedShrinkNeverDrains | projects/fs_project/thread_pool/thread_pool_impl.cpp:158-177 | two calls of Resize(0) on a pool of one reach two apples and one thread, which no schedule drains |
| ThreadPoolDepartures.RunCanMissASleeper | projects/fs_project/thread_pool/thread_pool_impl.cpp:55-62 | a run after which Run has returned, the flag is RUN and a worker is asleep |
| WaitableQueue.AttendedStep | projects/fs_project/waitable_queue/waitable_queue_impl.hpp:9-46 | every critical section, spurious wake-up, timeout and interruption keeps: if anyone waits, the queue is no longer than the woken consumers plus the wake-ups dropped by interrupted ones |
| WaitableQueue.NoLostWakeup | projects/fs_project/waitable_queue/waitable_queue_impl.hpp:9-46 | without such interruptions, while anyone waits the queue is no longer than the woken consumers, and a nonempty queue has a woken consumer able to take its front |
| WaitableQueue.LosesWakeupIff | projects/fs_project/waitable_queue/waitable_queue_impl.hpp:9-46 | of all steps, exactly the interruption of a woken consumer loses a wake-up, and exactly when another waits and no more are woken than elements queued |
| WaitableQueue.AbandonLosesWakeup | projects/fs_project/waitable_queue/waitable_queue_impl.hpp:17-28 | one woken consumer interrupted before it takes the mutex leaves an element, a waiter and nobody coming |
| WaitableQueue.QueueHistory | projects/fs_project/waitable_queue/waitable_queue_impl.hpp:9-46 | over every run, FIFO: pushed is popped followed by the queue; either container: pushed is popped plus queued as multisets |
| WaitableQueue.DrainsInRankOrder | projects/fs_project/waitable_queue/pq_wrapper_impl.hpp:8-12 | with the priority container, what any consumers pop while nobody pushes comes out in non-increasing rank and nothing left outranks it |
| WaitableQueue.OnlyTheTimedGiveUp | projects/fs_project/waitable_queue/waitable_queue_impl.hpp:17-46 | in every run a timeout, or a return without an element, happens only to a consumer whose last wait was that of the timed Pop |
| WaitableQueue.TimesOutIff | projects/fs_project/waitable_queue/waitable_queue_impl.hpp:32-46 | a waiting consumer may time out if and only if its last wait was timed, and may then return |
| WaitableQueue.CallsDoNotOverlap | projects/fs_project/waitable_queue/waitable_queue_impl.hpp:17-46 | a consumer takes or begins to wait only when every wait it began before has ended |
| WaitableQueue.QueueFromLabels | projects/fs_project/waitable_queue/waitable_queue_impl.hpp:9-46 | FIFO: the queue is what the labels pushed less as many from the front as they took; either container: pushed is popped plus queued |
| WaitableQueue.NobodyIsStuck | projects/fs_project/waitable_queue/waitable_queue_impl.hpp:9-46 | a consumer that does not wait always has a step, and a waiting one can wake spuriously or be interrupted |
| WaitableQueueMonitor.Monitor.Push | projects/fs_project/waitable_queue/waitable_queue_impl.hpp:9-15 | appends and wakes one waiter if there is one; keeps the wake-up and history invariants |
| WaitableQueueMonitor.Monitor.Enter | projects/fs_project/waitable_queue/waitable_queue_impl.hpp:17-46 | takes the front if the queue is not empty, otherwise joins the wait set as timed or not as the caller asked; keeps both invariants |
| WaitableQueueMonitor.Monitor.Resume | projects/fs_project/waitable_queue/waitable_queue_impl.hpp:22-27 | a woken consumer tests again: takes the front or waits again; keeps both invariants |
| WaitableQueueMonitor.Monitor.FindFront | projects/fs_project/waitable_queue/pq_wrapper_impl.hpp:8-12 | the front is the oldest element, or one that no other outranks |
| Broadcast.PlanExact | projects/fs_project/dispatcher_callback/dispatcher_callback_impl.hpp:79-96 | from any cursor, visited positions are in list order, and a position is visited if and only if no handler called before its turn removed it and none before it removed its own node, which only the last can do |
| Broadcast.BroadcastExact | projects/fs_project/dispatcher_callback/dispatcher_callback_impl.hpp:79-96 | over the whole list: an in-order subsequence of the initial nodes, none twice, nothing added meanwhile, and exactly the nodes not removed before their turn, up to a node whose handler removed it |
| Broadcast.FinalList | projects/fs_project/dispatcher_callback/dispatcher_callback_impl.hpp:70-96 | any operations of any handlers leave one new node for each subscription no later one removed, the latest first, and behind them the old nodes none removed, in order |
| Dispatching.Dispatcher.Broadcast | projects/fs_project/dispatcher_callback/dispatcher_callback_impl.hpp:79-86 | the loop that follows list links while handlers push and remove nodes notifies exactly the planned nodes, terminates, and ends on a valid iterator if and only if no handler removed the node it was called for; the list then is the surviving new subscriptions, latest first, before the surviving old ones |
| Dispatching.Dispatcher.Subscribe | projects/fs_project/dispatcher_callback/dispatcher_callback_impl.hpp:70-77 | puts the callback in front and points it here; links stay sound if and only if it was free or attached here |
| Dispatching.Dispatcher.UnSubscribe | projects/fs_project/dispatcher_callback/dispatcher_callback_impl.hpp:89-96 | removes every node of the callback and nothing else |
| Dispatching.Dispatcher.Destroy | projects/fs_project/dispatcher_callback/dispatcher_callback_impl.hpp:99-107 | tells each subscription once in list order, frees exactly its own callbacks, keeps links sound |
| Dispatching.Callback.Destroy | projects/fs_project/dispatcher_callback/dispatcher_callback_impl.hpp:15-34 | an attached callback leaves its dispatcher's list; links stay sound |
| Dispatching.Population.Run | projects/fs_project/dispatcher_callback/dispatcher_callback_impl.hpp:70-107 | over every script of creations, subscriptions and destructions: exactly the permitted ones are performed; who lives and who is on which live list, in which order, is what they say; a live callback is on a live dispatcher's list if and only if it points there, and nothing names a dead object |
| Dispatching.MembersSnoc | projects/fs_project/dispatcher_callback/dispatcher_callback_impl.hpp:70-96 | an attachment comes in front of its list and a destruction takes its callback off every list |
| Reactor.SelectListener.SetArgs | projects/fs_project/reactor/reactor.cpp:70-88 | requests exactly the registered keys; m_max_fd is above every registered descriptor and no larger than needed |
| Reactor.SelectListener.CreateList | projects/fs_project/reactor/reactor.cpp:96-109 | for every iteration order, the early exit finds ready registered keys, none twice, and all of them if and only if the count is at least their number |
| Reactor.SelectListener.Do | projects/fs_project/reactor/reactor.cpp:56-68 | fails with select, or leaves exactly the reported keys in front of the list |
| Reactor.BatchIsSound | projects/fs_project/reactor/reactor.cpp:26-38 | calls are of listed keys, registered with that handler at that moment, none twice, each in the state the previous left, none after a handler that called Stop or threw |
| Reactor.BatchIsComplete | projects/fs_project/reactor/reactor.cpp:26-38 | a listed registered key that no handler removes is called unless a handler stopped or threw |
| ReactorTrace.ActExact | projects/fs_project/reactor/reactor.cpp:13-24 | a handler's actions are performed up to the first removal of a key not registered then, which throws; a key is registered afterwards if and only if the last action on it was a registration, or there was none and it was before, with the last handler registered; stopped if and only if Stop is among them |
| ReactorTrace.BatchExact | projects/fs_project/reactor/reactor.cpp:26-38 | as far as a batch gets, a position of the list is called if and only if its key is registered by what the handlers called before it did; a key removed before its turn is not called |
| Reactor.Reactor.Drop | projects/fs_project/reactor/reactor.cpp:18-24 | Remove throws exactly when the key is absent and then changes nothing |
| Reactor.Reactor.InvokeHandlers | projects/fs_project/reactor/reactor.cpp:26-38 | makes exactly the calls of the batch; the pending list is cleared unless a handler threw |
| Reactor.Reactor.Run | projects/fs_project/reactor/reactor.cpp:40-49 | every turn asks select for the keys registered then and makes exactly the calls of the batch reported, soundly; each turn goes on from where the previous ended and none follows one that stopped or threw; the list is empty at each later loop head, and a handler that throws leaves its turn's list |
| Reactor.EveryTurn | projects/fs_project/reactor/reactor.cpp:40-49 | each turn of such a run finds the state its predecessor left, not stopped; calls only keys reported ready in it (from the second turn on), registered at that moment, each at most once, none after a Stop |
| Reactor.OnlyReadyIff | projects/fs_project/reactor/reactor.cpp:26-49 | over every honest select and every handler, the first turn of a Run calls only ready keys if and only if no key was left pending or none is registered |
| Reactor.LeftoverIsCalledUnready | projects/fs_project/reactor/reactor.cpp:13-49 | two Runs on one reactor: a handler that removes an absent key ends the first; in the second select reports nothing and the key left pending is called |
| Singleton.KeepsInv | projects/fs_project/singlton/singleton_impl.hpp:10-27 | every step of every thread keeps the agreement between the lock holder's position, the objects built, the published pointer and the exit hooks |
| Singleton.OneInstance | projects/fs_project/singlton/singleton_impl.hpp:10-27 | in every run at most one construction succeeds and at most one hook is registered, exactly one once the lock is free after publication; a published pointer is to a built object, every return is that object, also when constructors throw and are retried |
| Singleton.ThrowLeavesNothing | projects/fs_project/singlton/singleton_impl.hpp:16-22 | a constructor that throws leaves no object, pointer or hook, the lock free, and the thread able to call again |
| Singleton.NobodyIsStuck | projects/fs_project/singlton/singleton_impl.hpp:10-27 | a thread can step, or waits for the lock and its holder can step |
| Logger.LogFile | projects/fs_project/logger/logger.cpp:37-71 | the file is one blank line followed by the messages logged at or below the level then in force, in order, as many lines as were written; the sentinel is not written; at most one pop after the flag |
| Logger.ShutdownEnds | projects/fs_project/logger/logger.cpp:37-43 | once the sentinel is pushed the logging thread is never blocked and ends within three of its steps |
| Placement.ChoiceIsModular | projects/fs_project/raid/raid.cpp:13-18 | with the integer conversions written out, the pair is offset mod n and its successor mod n, distinct exactly when n is at least 2 |
| Placement.ChoiceIsValidIff | projects/fs_project/raid/raid.cpp:13-18 | a valid pair for every 64-bit offset if and only if 1 <= n < 2^31 |
| Placement.SamePrimaryIff | projects/fs_project/raid/raid.cpp:13-18 | blocks share a primary if and only if n/gcd(n,4096) divides their distance |
| Placement.PrimaryIsMultiple | projects/fs_project/raid/raid.cpp:13-18 | every primary is a multiple of gcd(n,4096) |
| Placement.WindowHitsOnce | projects/fs_project/raid/raid.cpp:13-18 | any n/gcd(n,4096) consecutive blocks hit each multiple of gcd(n,4096) below n exactly once |
| Placement.BalancedIffOdd | projects/fs_project/raid/raid.cpp:13-18 | every minion is the primary of one of the first n blocks if and only if n is odd; for even n minion 1 is the primary of none |
| Mirror.Minion.ProcessReadReq | projects/fs_project/master/minion_test.cpp:73-88 | the stored block, or zeros with the not-found code |
| Mirror.Minion.ProcessWriteReq | projects/fs_project/master/minion_test.cpp:90-112 | overwrites, or stores if there is room, or reports no space and changes nothing |
| Mirror.Cluster.Communicate | projects/fs_project/commands/read_command.cpp:77-96 | whatever is lost, delivered late or repeated, and whichever delivery finds room, an answered request took effect as if delivered once; without an answer the minion has failed for good |
| Mirror.FailedIsFirstDeath | projects/fs_project/commands/read_command.cpp:49-96 | the failed minion of a history is the one that died in the first event in which one did |
| Mirror.PutKeeps | projects/fs_project/commands/write_command.cpp:67-88 | with or without room, after a write every live replica holds an offset exactly if it ever found room for it, and then the latest write to it |
| Mirror.StoreAnswers | projects/fs_project/master/minion_test.cpp:73-88 | so the answer of a live replica is the latest write or zeros, and the latest exactly if it found room or the latest is zeros |
| Mirror.RoomyIsOneMap | projects/fs_project/commands/read_command.cpp:49-75 | with room everywhere and two or more minions the answer is the latest write or zeros if there was none, whichever minion failed |
| Mirror.Cluster.WriteCmd | projects/fs_project/commands/write_command.cpp:67-88 | a request delivered whole takes effect on both replicas unless they failed, and on nothing else; a replica without room does not take it and the caller is not told; agreement with the history is kept |
| Mirror.Cluster.ReadCmd | projects/fs_project/commands/read_command.cpp:49-75 | in every state: the latest write or zeros, never an older block, and the latest exactly if the answering replica ever found room or the latest is zeros; no answer exactly if the only minion failed; no live store changes |
| Mirror.Cluster.Session | projects/fs_project/commands/read_command.cpp:49-96 | the same of every read in every run of commands, with any lost messages, any lack of room and at most one minion failing |
| Mirror.RefusedWriteReadsZeros | projects/fs_project/master/minion_test.cpp:96-108 | a run in which a write finds no room on the first replica and the next read answers zeros |
| Datagrams.HeaderRoundTrip | projects/fs_project/app_protocol/app_protocol.hpp:21-32 | the packed header is read back as written |
| Datagrams.HeaderTakesNext | projects/fs_project/master/minion_test.cpp:50-59 | a write header takes the next datagram as its block, whatever it is, over what the buffer held |
| Datagrams.ReadHeaderIsServed | projects/fs_project/master/minion_test.cpp:50-59 | a read header is a request of its own with its id and offset, and nothing else is taken |
| Datagrams.OtherKindWritesBuffer | projects/fs_project/master/minion_test.cpp:34-59 | a header of any other kind is served as a write of what the buffer held |
| Datagrams.ServedAsWrittenIff | projects/fs_project/master/minion_test.cpp:50-59 | a write header is served as the write of a block, whatever the buffers held, if and only if the next datagram carries that block |
| Datagrams.Endpoint.Serve | projects/fs_project/master/minion_test.cpp:34-59 | the minion's loop over arrived datagrams leaves exactly the store, the waiting datagrams and the replies of their requests in order; what those are for each kind of header the rows beside this one say |
| Datagrams.HeadersAlone | projects/fs_project/commands/write_command.cpp:47-66 | k headers and no block, as written: fewer than two store nothing, an odd one waits for the next datagram, and otherwise the offset holds the header over the old buffer, which is the block to be written only if the block is that |
| Datagrams.OddHeaderSwallowsNext | projects/fs_project/master/minion_test.cpp:50-59 | after an odd number of headers the next datagram, even another request, is stored as a block and not served |
| Datagrams.WriteThenRead | projects/fs_project/master/minion_test.cpp:34-112 | a write sent whole and then a read: two replies with their ids; the read of that offset answers the block without error exactly if the write found room or overwrote, and of another what was there |
| Datagrams.WholeRequests | projects/fs_project/master/minion_test.cpp:90-112 | header and block sent any number of times are one write that finds room if any of them does |
| ReplyStream.Pipe.WriteAll | projects/fs_project/nbd_proxy/nbd_proxy.cpp:155-164 | writes the whole buffer in order over any partial writes, or a proper prefix when a write fails |
| ReplyStream.Pipe.ReadAll | projects/fs_project/nbd_proxy/nbd_proxy.cpp:144-153 | reads exactly the requested bytes from the front over any partial reads |
| ReplyStream.Pipe.RoundTrip | projects/fs_project/nbd_proxy/nbd_proxy.cpp:144-164 | what is written is what is read |
| ReplyStream.StreamIsWholeChunks | projects/fs_project/master/master.cpp:71-76 | for every schedule the stream is whole chunks in lock order and a prefix of the current one, each thread's in program order |
| ReplyStream.OrderFromLabels | projects/fs_project/master/master.cpp:71-76 | lock order, volume of the stream and lock holder are those of the labels |
| ReplyStream.OrderOccursIff | projects/fs_project/master/master.cpp:71-76 | some run gives the lock out in an order if and only if it is an order of calls the threads make, each thread's in program order |
| ReplyStream.FollowsIffAdjacent | projects/fs_project/commands/read_command.cpp:72-73 | a block directly follows its header if and only if no other Reply took the lock in between |
| ReplyStream.DecodeEncode | projects/fs_project/nbd_proxy/nbd_proxy.cpp:166-206 | replies sent whole are decoded as sent |
| ReplyStream.DecodesIff | projects/fs_project/nbd_proxy/nbd_proxy.cpp:166-206 | the client decodes exactly these replies if and only if the stream is their encoding |
| ReplyStream.WholeRepliesAreDecoded | projects/fs_project/master/master.cpp:71-76 | in every run whose lock order keeps replies whole, the client decodes exactly those replies |
| ReplyStream.InterleavedReadsAreMisread | projects/fs_project/commands/read_command.cpp:72-73 | a run of two ReadCmds replies header, header, block, block; the client decodes the two replies if and only if the first block commutes with the second header, and its first reply begins with that header |

## Left out

- ThreadPool::Stop and runs after it: its termination depends on interruption points in user code.
- Liveness of ThreadPool::Run: `RunCanMissASleeper` shows why it does not hold. `PoolSettlesIff` is about some schedule, in which a missed worker wakes spuriously, not about every fair one.
- The pool's calls of Pause and Resize are made by one thread at a time; m_threads.size(), read without the lock, is one atomic step, and allocation failures of the pool are not modelled.
- Waiting and waking inside m_tasks are not repeated in the pool; a Pop there is the moment its critical section takes the front, which the monitor model justifies.
- WaitableQueue.Abandon stands both for interruption and for a timed wait that reports a timeout to a consumer already notified; which of these boost does is not decided here.
- Handlers that replace or remove the very reactor entry being executed have the map's meaning in the model; C++ gives them none. Stop called from another thread is not modelled, nor descriptors outside the range of fd_set.
- Broadcast handlers act on the list alone; the back pointers their actions set are the subject of `Dispatching.Population.Run`, which covers every sequence of such actions.
- DispatcherDeath handlers that change subscriptions, and destroying a dispatcher during its own Broadcast.
- Late delivery of a datagram after its command ended, the minions' single stored client address, and the asynchronous minion proxies.
- StorageManager::Load copies from the address of the map slot (`projects/fs_project/storage/storage.cpp:40`); the mirror rests on the Minion of `projects/fs_project/master/minion_test.cpp`.
- Blocks stored by a minion are values in a map; their addresses are not modelled. What a request's buffer holds before it is filled is a parameter.
- Mirror.Cluster.WriteCmd: its request is delivered whole, header and block; what the header alone does, as the code sends it, is `Datagrams.HeadersAlone`. The two are not combined into one run of a cluster.
- Weak memory below acquire and release in the singleton, and the exit phase that deletes the object.
- ParseData, ReadIpsAndPorts, the configuration, factory, mediator, framework, plug-in loading, directory monitoring and all socket, ioctl and mount calls: they would add only easy members or foreign effects.
