# A verified model of the muduo reactor library

This project models the parts of the library that hold state, run protocols or parse input, and proves what
they promise over every input and every run.

| module | file | what it models |
|---|---|---|
| MinHeaps | MinHeap.dfy | the array heap, its hole-moving loops and the bookkeeping of its vector |
| TimerProtocol, TimerRounds | TimerProtocol.dfy, TimerRound.dfy | timers, lazy cancellation, re-arming and the kernel deadline as steps, with callbacks that add and cancel timers |
| TimerQueues, TimerQueueRuns | TimerQueue.dfy, TimerQueueRun.dfy | the timer queue object, every method of which is proved to take steps of the protocol, and whole runs of it |
| EventLoop | EventLoop.dfy | posting to a loop from any number of threads through the functor queue and the eventfd |
| TcpServer | TcpServer.dfy | connections entering and leaving a server with any number of loops |
| Monitor, BoundedBlockingQueue, ThreadPool | Monitor.dfy, BoundedBlockingQueue.dfy, ThreadPool.dfy | condition variables and the two blocking queues, with barging and spurious wakeups |
| Buffers | Buffer.dfy | the compacting byte buffer over one array |
| OutputStream, TcpConnections | OutputStream.dfy, TcpConnection.dfy | the send, write and shutdown path of a connection |
| Channels, EpollPollers | Channel.dfy, EpollPoller.dfy | the dispatch of an event to callbacks, the poller's registration states and the kernel's interest set |
| Http, HttpContexts | Http.dfy, HttpContext.dfy | the incremental request parser, as a function and as the object with its loop |
| Json, JsonLoops, JsonPath, Text | Json.dfy, JsonLoops.dfy, JsonPath.dfy, Text.dfy | the JSON parser and printer, as functions and as the loops of the source, and path lookup and update |

Code that changes objects in place is a class whose methods are proved against functions of the abstract state;
protocols between threads are step relations, and a run is a sequence of states.

Where the code does not always do what it is for, the model keeps the code, and a lemma says exactly when it does:

- `MinHeap::push` loses entries after `shrink` has made the vector shorter than the heap grows again, because
  `expand` looks at the capacity of the vector and `shrink` lowers its size (`MinHeaps.MinHeap.Push`,
  `MinHeaps.ShrinkThenFill`). `TimerQueueRuns.Drive` says exactly which runs of a timer queue lose nothing; the next
  `assertOrder` of any other run fails. `TimerQueueRuns.LossyRun` is a run that loses sixteen timers.
- A queue of capacity 0 deadlocks (`BoundedBlockingQueue.DeadlocksOnlyWithoutCapacity`).
- A thread that submits to a pool with a limit can stay asleep beside a free slot, because `take` never signals
  `notFull_` (`ThreadPool.StrandedOnlyWithLimit`).
- A loop can go to sleep on a functor that one of its own functors queued (`EventLoop.SleepsOnlyOnOwnFunctors`).
- An event can close a connection twice: exactly a hang-up without ordinary data, with urgent data or a half-close,
  on which the read returns nothing (`Channels.ClosesTwice`). In the runs with such an event, and in no others, the
  assertions of `removeChannel` fail (`TcpServer.RemovalFailsOnlyOnDoubleClose`, `TcpServer.RemovalFailsOnlyOnClosing`),
  and a channel may be polled after its connection has left `connMap_` (`TcpServer.PolledUnmappedOnlyAfterClosing`).
- A shutdown made in the loop while output is pending never happens (`OutputStream.ShutdownTakesEffect`). One that
  another thread asks for happens exactly when the channel is not writing as its functor runs: not if output is
  still pending then on a connection that is up, and without its output if the peer has closed
  (`OutputStream.QueuedShutdownTakesEffect`, `OutputStream.ThreeLateShutdowns`).
- Disabling a channel that the kernel does not watch makes it watch the channel (`EpollPollers.EpollPoller.Change`).
- `HttpContext::reset` keeps the old body (`HttpContexts.HttpContext.Reset`), and three kinds of fragment boundary
  show in what the HTTP parser does or answers: after a header line without a colon, after a completed body that more
  bytes follow, and inside the body of a POST, where the first call is answered with a refusal
  (`Http.Fragmentation`, `Http.Chunking`).
- A Content-Length is compared as the number it is if and only if it is below 2^31 or is 2^64-1
  (`Http.LengthKept`, `Http.PostHonoursLength`); a POST that announces 4294967296 bytes is complete without any
  (`Http.LargeLengthCompletes`).
- An array that ends in null loses it when printed and parsed (`Json.RoundTrip`). The parser does not read the word
  `null`, nor a sign: it yields null in front of either, and inside an array never gets past it
  (`Json.UnknownElement`, `Json.NullInArray`, `Json.NegativeNumber`).
- Inserting under a missing key throws away every other member of the node (`JsonPath.SetElsewhere`).

The comment at muduo/net/TcpConnection.cc:206 says that the write-complete callback is not called directly; the code
calls it directly, and the model follows the code.

## Model

| member | source | states |
|---|---|---|
| MinHeaps.StepUp | muduo/base/MinHeap.h:39-44 | moving a parent down into the hole keeps the rest of the heap in order and the pushed value below the children of the new hole |
| MinHeaps.StepDown | muduo/base/MinHeap.h:69-85 | moving up the child that the loop picks keeps the rest of the heap in order and the sinking value above its new parent |
| MinHeaps.RootIsMinimum | muduo/base/MinHeap.h:62-64 | the top of a heap is a minimum of all its entries |
| MinHeaps.DistinctHeapIsStrict | muduo/base/MinHeap.h:149-158 | in a heap of distinct entries the strict comparisons of `assertOrder` hold |
| MinHeaps.Rise | muduo/base/MinHeap.h:36-48 | the upward loop gives a heap with the same entries and returns the index of the new one |
| MinHeaps.RiseUnguarded | muduo/base/MinHeap.h:97-103 | the upward loop of `remove`, which does not test for the root, ends and gives a heap, provided its value is not less than the root |
| MinHeaps.PickChild | muduo/base/MinHeap.h:71-79 | the comparisons choose a child less than the value and not greater than its sibling, and none exactly when no child is less |
| MinHeaps.Sink | muduo/base/MinHeap.h:68-86 | the downward loop gives a heap with the same entries |
| MinHeaps.WithoutRoot | muduo/base/MinHeap.h:65-88 | `pop` keeps the order and takes away exactly the root |
| MinHeaps.Without | muduo/base/MinHeap.h:94-124 | `remove` at any index keeps the order and takes away exactly that entry, on both of its branches |
| MinHeaps.MinHeap.constructor | muduo/base/MinHeap.h:30-33 | a new heap is empty and its storage invariant holds |
| MinHeaps.MinHeap.Push | muduo/base/MinHeap.h:36-61 | keeps order and adds exactly one entry if and only if the storage has room; without room, which entries are overwritten; and the null entries that this leaves stay away from the root |
| MinHeaps.NullFailsOrder | muduo/base/MinHeap.h:149-158 | with a null entry away from the root the assertions fail, whatever else is in the array, if no time lies before the epoch |
| MinHeaps.MinHeap.Pop | muduo/base/MinHeap.h:65-88 | keeps order and storage invariant and removes exactly the top, also for a single entry |
| MinHeaps.MinHeap.Remove | muduo/base/MinHeap.h:89-126 | keeps order and storage invariant and removes exactly the entry at the index |
| MinHeaps.MinHeap.AssertOrder | muduo/base/MinHeap.h:149-158 | its assertions all hold if and only if every child is strictly greater than its parent |
| MinHeaps.ShrinkThenFill | muduo/base/MinHeap.h:127-137 | a push, a pop and sixteen pushes leave sixteen null entries and nothing else |
| MinHeaps.FillThenDrain | muduo/base/MinHeap.h:36-137 | any number of pushes into a new heap loses nothing, across every growth, and popping them all delivers them in order |
| TimerProtocol.NextKeepsInv | muduo/net/TimerQueue.cc:99-166 | every step, callbacks included, keeps the entries, the accounts, the order of events and the armed deadline in agreement |
| TimerProtocol.RunKeepsInv | muduo/net/TimerQueue.cc:99-166 | the whole invariant holds in every state of every run |
| TimerProtocol.SplitUnique | muduo/net/TimerQueue.cc:125-134 | there is only one sorted batch that holds precisely the expired entries of a heap and one remainder |
| TimerProtocol.EveryTimerInOnePlace | muduo/net/TimerQueue.cc:99-156 | a timer ever created is live or deleted, never both; a live one has exactly one entry, in the heap or in the batch, under its current expiration |
| TimerProtocol.DeletedOnce | muduo/net/TimerQueue.cc:144-146 | nothing happens to a timer after its deletion, and so it is deleted at most once |
| TimerProtocol.NeverRunsAfterCancel | muduo/net/Timer.h:54-58 | over every run no callback is called after its timer was cancelled, even by an earlier callback of the same batch |
| TimerProtocol.OneShotRunsAtMostOnce | muduo/net/TimerQueue.cc:120-147 | a one-shot timer is called at most once |
| TimerProtocol.NeverRunsEarly | muduo/net/TimerQueue.cc:115-134 | no timer is called in a batch whose time is before its expiration |
| TimerProtocol.DeadlineIsArmed | muduo/net/TimerQueue.cc:148-155 | between events a non-empty heap has the timerfd last armed for its earliest valid expiration, also when callbacks added timers |
| TimerProtocol.EveryDueTimerIsCalled | muduo/net/TimerQueue.cc:120-122 | once the callback loop is over, every timer of the batch was called in it or had been cancelled |
| TimerProtocol.DeletionHasACause | muduo/net/TimerQueue.cc:140-146 | a deleted timer was cancelled before, or is one-shot and was called before; no other timer is ever lost |
| TimerProtocol.CallAllLeads | muduo/net/TimerQueue.cc:120-122 | the callback loop, whatever its callbacks ask for, is a path of protocol steps from the first entry of the batch to its end |
| TimerProtocol.ResetAllLeads | muduo/net/TimerQueue.cc:139-147 | the loop of `reset` is a path of protocol steps to the end of the batch |
| TimerRounds.CallbacksCarry | muduo/net/TimerQueue.cc:120-122 | whatever the callbacks do, no timer goes away during the callback loop and none changes but by being cancelled |
| TimerRounds.ResetProceeds | muduo/net/TimerQueue.cc:139-147 | at every point of the loop of `reset` the timers done are re-armed or deleted and the others untouched |
| TimerRounds.RoundHandles | muduo/net/TimerQueue.cc:115-156 | one `handleRead` leaves entries that are not due, calls each due timer unless cancelled, re-arms it at now plus interval if it repeats, and deletes it otherwise |
| TimerRounds.RoundCallsDue | muduo/net/TimerQueue.cc:115-134 | one `handleRead` calls only the timers of entries that were in the heap and due when it began |
| TimerRounds.RoundCallsInOrder | muduo/net/TimerQueue.cc:120-134 | one `handleRead` calls timers in the order of their entries, and no timer twice |
| TimerRounds.RoundPossible | muduo/net/TimerQueue.cc:115-156 | in every idle state that a run reaches, at any time and whatever its callbacks ask for, one `handleRead` can happen and leaves such a state again |
| TimerRounds.SplitMeans | muduo/net/TimerQueue.cc:127-132 | an entry of the heap is in the batch if and only if its time is not after now, and otherwise stays |
| TimerRounds.ArmedOnlyForEarliest | muduo/net/TimerQueue.cc:99-156 | no step arms the timerfd for anything but the earliest entry of the heap it leaves, and `reset` only for a valid time |
| TimerRounds.ActionsPossible | muduo/net/TimerQueue.cc:72-114 | outside `reset` a timer can be added at any free address for any time and interval, and any live timer be cancelled, with nothing else changed |
| TimerQueues.ExtractRoot | muduo/net/TimerQueue.cc:129-132 | taking one more top keeps the batch sorted, below the rest, and the two together the original heap |
| TimerQueues.ExtractionDone | muduo/net/TimerQueue.cc:128-133 | when the loop stops at the sentinel entry, batch and heap are exactly the split at the current time |
| TimerQueues.TimerQueue.AddTimer | muduo/net/TimerQueue.cc:72-114 | takes the protocol's step for adding a timer, and the heap holds what it ought to afterwards if and only if it did before and had room |
| TimerQueues.TimerQueue.CancelInLoop | muduo/net/TimerQueue.cc:164-166 | takes the protocol's step for cancelling a live timer; its entry stays where it is |
| TimerQueues.TimerQueue.AssertOrder | muduo/net/TimerQueue.cc:148 | in every state that a run reaches the asserted order holds if no entry was lost, and only then if no time lies before the epoch |
| TimerQueues.TimerQueue.GetExpired | muduo/net/TimerQueue.cc:125-134 | splits the heap at the current time into the sorted expired entries and the rest, and what the pops leave of the storage |
| TimerQueues.TimerQueue.RunActions | muduo/net/TimerQueue.cc:99-114 | what a callback adds and cancels happens in the order asked, and loses an entry exactly when the pushes outgrow the storage |
| TimerQueues.TimerQueue.RunCallbacks | muduo/net/TimerQueue.cc:120-122 | the callback loop over the whole batch computes what the protocol's loop does, and loses an entry exactly when the pushes outgrow the storage |
| TimerQueues.TimerQueue.RunOne | muduo/net/TimerQueue.cc:120-122 | one round of the callback loop is the protocol's step: called exactly when not cancelled |
| TimerQueues.TimerQueue.ResetOne | muduo/net/TimerQueue.cc:139-147 | one round of `reset` is the protocol's step: re-armed or deleted |
| TimerQueues.TimerQueue.Reset | muduo/net/TimerQueue.cc:137-156 | the loop over the batch to its end; then the assertion passes and the timerfd is armed if and only if no entry was lost |
| TimerQueues.TimerQueue.HandleRead | muduo/net/TimerQueue.cc:115-124 | its assertions pass if and only if no entry was lost before and the round fits the storage, growth included; then it is one whole round of the protocol, with what its callbacks add and cancel, and the storage for the next round is known |
| TimerQueues.FitsAfterSplit | muduo/base/MinHeap.h:127-137 | whether a round fits depends on the state before it alone: on the storage that its pops leave and on the heap at its end |
| TimerQueueRuns.Drive | muduo/net/TimerQueue.cc:72-166 | over any run of additions, cancellations and timer events, all assertions pass and no entry is lost if and only if every use fits the storage that those before it left; then the run is one of the protocol |
| TimerQueueRuns.FitsAfterUse | muduo/base/MinHeap.h:127-137 | a use has one outcome and leaves one storage, from which the rest of the run is judged |
| TimerQueueRuns.SmallQueueLosesNothing | muduo/base/MinHeap.h:28-33 | a queue that always holds fewer entries than its first block, sixteen by default, never loses one |
| TimerQueueRuns.LossyRun | muduo/net/TimerQueue.cc:99-134 | one timer fires, sixteen are added, and none of the sixteen live timers has an entry in the heap |
| Monitor.SignalCounts | muduo/base/Condition.cc:9-23 | a signal only moves sleepers to the woken, and at least one if there is any |
| BoundedBlockingQueue.NextKeepsInv | muduo/base/BoundedBlockingQueue.h:24-56 | every critical section keeps order, capacity and the two counts of woken threads |
| BoundedBlockingQueue.FirstInFirstOut | muduo/base/BoundedBlockingQueue.h:24-56 | over every run takes come out in put order, none lost or doubled, and the size stays within capacity |
| BoundedBlockingQueue.ItemsConserved | muduo/base/BoundedBlockingQueue.h:24-44 | over every run each item that `put` was called with has been put or is still with its producer, which waits |
| BoundedBlockingQueue.OnlyCalls | muduo/base/BoundedBlockingQueue.h:24-56 | a thread with the mutex puts its item exactly when there is room and takes the front exactly when there is one, waking one of the other kind, and waits otherwise; nothing else happens |
| BoundedBlockingQueue.PutPossible | muduo/base/BoundedBlockingQueue.h:24-44 | a thread outside can call `put` at any time the mutex is free, and a woken producer can go on |
| BoundedBlockingQueue.TakePossible | muduo/base/BoundedBlockingQueue.h:46-56 | the same for `take` and woken consumers |
| BoundedBlockingQueue.NoLostWakeup | muduo/base/BoundedBlockingQueue.h:24-56 | a thread asleep beside an item, or a free slot, always has an awake thread of its kind whose next step uses it |
| BoundedBlockingQueue.DeadlocksOnlyWithoutCapacity | muduo/base/BoundedBlockingQueue.h:21-56 | producers and consumers can all be asleep together if and only if the capacity is 0 |
| ThreadPool.NextKeepsInv | muduo/base/ThreadPool.cc:32-91 | every step keeps the invariant although `running_` changes outside the mutex |
| ThreadPool.TasksConserved | muduo/base/ThreadPool.cc:49-91 | what was accepted is what was taken followed by what is queued, in order, none lost or doubled, and a positive limit is never exceeded |
| ThreadPool.TasksSubmitted | muduo/base/ThreadPool.cc:49-65 | over every run, whatever the limit, each task that `run` was called with is accepted, refused or still with its submitter, and none is refused while the pool runs |
| ThreadPool.SubmitterLeaves | muduo/base/ThreadPool.cc:55-63 | whatever `stop` does meanwhile, a submitter gives up the mutex only to sleep beside a full queue, or with its task appended and a worker signalled, or because the pool was stopped |
| ThreadPool.SubmissionCompletes | muduo/base/ThreadPool.cc:49-65 | a call of `run` that nobody disturbs queues its task if there is room, sleeps if there is none, and is refused exactly if the pool is stopped |
| ThreadPool.ResumptionCompletes | muduo/base/ThreadPool.cc:55-63 | the same for a submitter that is woken |
| ThreadPool.WorkerLeaves | muduo/base/ThreadPool.cc:79-91 | a worker gives up the mutex with the front task, or asleep beside an empty queue, or without a task because the stopped pool has none |
| ThreadPool.TakeCompletes | muduo/base/ThreadPool.cc:79-91 | a worker that nobody disturbs, fresh or woken, comes to the one of these that the queue and the flag call for |
| ThreadPool.SubmittersStay | muduo/base/ThreadPool.cc:55-58 | a submitter that waits goes on waiting with its task, or gets the mutex back |
| ThreadPool.StopCompletes | muduo/base/ThreadPool.cc:32-38 | `stop` clears the flag and, once the mutex is free, wakes everybody |
| ThreadPool.PushFindsRoom | muduo/base/ThreadPool.cc:55-62 | the assertion before the push never fails, whenever `stop` comes |
| ThreadPool.NobodySleepsAfterStop | muduo/base/ThreadPool.cc:32-38 | from the broadcast of `stop` on nobody is asleep or ever sleeps again |
| ThreadPool.NoLostTask | muduo/base/ThreadPool.cc:62-83 | while a worker sleeps and the mutex is free, every queued task has a woken worker |
| ThreadPool.StrandedOnlyWithLimit | muduo/base/ThreadPool.cc:55-90 | a submitter can be left asleep beside room in a running pool if and only if the pool has a limit |
| EventLoop.RunKeepsInv | muduo/net/EventLoop.cc:95-179 | posting order and the announcement of pending functors are kept by every step of every thread |
| EventLoop.NoLostWakeup | muduo/net/EventLoop.cc:95-179 | a functor whose foreign poster has finished and that is pending has the eventfd raised, or the loop is on its way to the swap |
| EventLoop.ExactlyOnceInOrder | muduo/net/EventLoop.cc:129-179 | functors run exactly once and in posting order, and what has not run is queued |
| EventLoop.SwapTakesAll | muduo/net/EventLoop.cc:170-175 | everything posted before the swap has run or is in the batch of the swap |
| EventLoop.IterationCompletes | muduo/net/EventLoop.cc:95-112 | an iteration that nobody disturbs reads the eventfd if it was raised, runs everything that was queued, and polls again |
| EventLoop.PostCompletes | muduo/net/EventLoop.cc:139-159 | another thread can post at any moment; its functor is then the last in the queue and the eventfd raised |
| EventLoop.WakeupIsReadable | muduo/net/EventLoop.cc:161-168 | over every run the loop never reads the eventfd while its counter is zero |
| EventLoop.WhoPosts | muduo/net/EventLoop.cc:129-147 | functors are queued one at a time, by other threads at any moment and by the loop from its handlers and functors while those run, and by nobody else |
| EventLoop.SleepsOnlyOnOwnFunctors | muduo/net/EventLoop.cc:134-136 | the loop can sleep on a finished post if and only if one of its own functors made it |
| TcpServer.NextKeepsInv | muduo/net/TcpServer.cc:45-82 | every step of every loop, with any reported events and any reads, keeps the account of each connection: every close is queued for removal, queued for destruction or carried out |
| TcpServer.ActiveStaysRegistered | muduo/net/TcpServer.cc:66-82 | over every run, from the return of poll until its handler runs a channel stays registered and its connection alive, in the map or in a queued functor; in the map always until it is closed, and after that unless an event closed twice |
| TcpServer.DeregisteredOnlyInDrain | muduo/net/TcpConnection.cc:64-73 | over every run a channel is deregistered only by its own functor in the drain phase of its own loop |
| TcpServer.RemovalIsUnderWay | muduo/net/TcpServer.cc:66-82 | over every run a closed connection always has the functor for its next stage queued in the right loop |
| TcpServer.EstablishFindsConnection | muduo/net/TcpServer.cc:57-63 | over every run the plain pointer queued for `connectEstablished` still points at a connection in the map, never established nor closed |
| TcpServer.ClosesAreHandled | muduo/net/Channel.cc:47-73 | a connection is closed by the events of its own channel alone, by each as often as its flags and its read say |
| TcpServer.PollPossible | muduo/net/poller/EpollPoller.cc:29-62 | poll may return any channels of its loop that the kernel has, each once, with any flags that were asked for, errors and hang-ups besides |
| TcpServer.HandlingPossible | muduo/net/EventLoop.cc:105-108 | the first active channel can handle its event, whatever its read returns |
| TcpServer.AcceptPossible | muduo/net/TcpServer.cc:45-64 | while loop 0 handles events it can accept a new connection for any loop, established at once for itself and through the queue of any other |
| TcpServer.FunctorPossible | muduo/net/EventLoop.cc:170-179 | the functor at the front can run: an establishment registers the channel, a removal unmaps the connection and queues its destruction in its own loop, a destruction deregisters the channel |
| TcpServer.RemovalFailsOnlyOnDoubleClose | muduo/net/poller/EpollPoller.cc:96-107 | over every run, the assertions of `removeChannel`, that the channel is known and asks for nothing, fail only if a handled event closed its connection twice, and with such an event they have failed by the time the queues are through |
| TcpServer.RemovalFailsOnlyOnClosing | muduo/net/Channel.cc:47-73 | whether they can fail, given what poll may report and reads may return: if and only if that includes a hang-up with urgent and without ordinary data on which the read returns nothing |
| TcpServer.HangUpWithUrgentData | muduo/net/Channel.cc:50-69 | the concrete event with which they fail |
| TcpServer.PolledAfterRemoval | muduo/net/TcpConnection.cc:138-146 | after an event that closes twice a channel can be polled when the map no longer holds its connection |
| TcpServer.PolledUnmappedOnlyAfterClosing | muduo/net/TcpConnection.cc:138-146 | a channel can be polled whose connection has left the map if and only if poll and read may give an event that closes twice |
| Buffers.FindCRLF | muduo/net/Buffer.h:56-62 | the position is that of the first line break, and none exactly when there is none |
| Buffers.FifoConserves | muduo/net/Buffer.cc:9-68 | a byte queue delivers what went in, in that order, and keeps the rest |
| Buffers.Drive | muduo/net/Buffer.cc:9-84 | over any run of appends, socket reads of any size and retrievals the buffer delivers and keeps what a plain byte queue would; a read takes all there is or at least 65536 bytes |
| Buffers.Buffer.FindCrlf | muduo/net/Buffer.h:56-62 | the search over the array finds the first line break of the readable bytes |
| Buffers.Buffer.Retrieve | muduo/net/Buffer.cc:35-42 | drops that many of the oldest bytes, all of them when fewer are there |
| Buffers.Buffer.RetrieveAsString | muduo/net/Buffer.cc:53-59 | what it returns, followed by what is left, is what was readable |
| Buffers.Buffer.Append | muduo/net/Buffer.cc:64-68 | the new bytes follow the readable ones, whether the array grows, is compacted or has room |
| Buffers.Buffer.MakeSpace | muduo/net/Buffer.cc:75-84 | makes room without changing the readable bytes; compaction runs only with a free front |
| Buffers.Buffer.CopyDown | muduo/net/Buffer.cc:80-83 | the overlapping forward copy within the array is exact |
| Buffers.Buffer.ReadFd | muduo/net/Buffer.cc:9-32 | a scatter read appends, over its two segments, exactly the bytes that fit them, and a failed one changes nothing |
| OutputStream.StreamConserved | muduo/net/TcpConnection.cc:117-226 | over every run, re-entrant callbacks included, wire followed by buffer is what the sends were given, and write interest is on exactly when bytes are buffered |
| OutputStream.SendAccepts | muduo/net/TcpConnection.cc:194-226 | a send on a connection that is up puts its data behind everything sent before, at once on the wire as far as the kernel takes it when nothing was pending, and in the buffer otherwise; the callback runs within it if and only if nothing was pending and the kernel takes all; in any other state it changes nothing |
| OutputStream.NoSendIsLost | muduo/net/TcpConnection.cc:117-226 | over every run, wire followed by buffer is the concatenation of the payloads that user code asked to send while the connection was up, read off the events |
| OutputStream.WriteDrains | muduo/net/TcpConnection.cc:117-135 | a writable connection puts as much of its buffer on the wire as the kernel takes, and the callback runs if and only if that empties it |
| OutputStream.StateMoves | muduo/net/TcpConnection.cc:57-146 | which events establish a connection and which take it down, and that user code does neither |
| OutputStream.NothingAfterShutdown | muduo/net/TcpConnection.cc:194-428 | no byte follows `shutdownWrite`, and unless the peer closed every accepted byte came before it |
| OutputStream.ShutdownTakesEffect | muduo/net/TcpConnection.cc:409-428 | a shutdown in the loop happens, now or ever, if and only if no output was pending |
| OutputStream.QueuedShutdownTakesEffect | muduo/net/TcpConnection.cc:409-428 | a shutdown from another thread happens, now or ever, if and only if the channel is not writing as its functor runs: with no output pending while the connection is up, and always once it is down |
| OutputStream.ThreeLateShutdowns | muduo/net/TcpConnection.cc:96-146 | one such request three times: met after the output drained, forgotten while it was pending, and met without the output after the peer closed |
| OutputStream.EventCloses | muduo/net/Channel.cc:47-73 | a polled event takes a connection down if and only if `handleClose` runs among its callbacks |
| TcpConnections.TcpConnection.SendInLoop | muduo/net/TcpConnection.cc:194-226 | on a connection that is up the data follows everything sent before, whatever the kernel takes, and the callback runs within the call when nothing was pending and the kernel takes all; in every state the real buffer and the wire end as the stream model says |
| TcpConnections.TcpConnection.HandleWrite | muduo/net/TcpConnection.cc:117-135 | the same for the buffer branch of the write handler and its callback |
| TcpConnections.TcpConnection.HandleEvent | muduo/net/TcpConnection.cc:57-146 | every event, reads included, keeps the connection's invariant and is the event of the stream model |
| TcpConnections.TcpConnection.HandlePolled | muduo/net/Channel.cc:47-73 | a polled event runs the connection's handlers in their order, keeps its invariant, and takes it down exactly when the reported flags and the read say so |
| EpollPollers.EpollPoller.EpollCtl | muduo/net/poller/EpollPoller.cc:116-136 | the kernel is never asked to add a present descriptor, nor to change or delete an absent one |
| EpollPollers.EpollPoller.Change | muduo/net/Channel.h:40-48 | which bit each operation sets or clears, the other left as it is; then the kernel watches exactly the mask, and the descriptor is present if and only if the mask is not empty or it was absent |
| EpollPollers.EpollPoller.UpdateChannel | muduo/net/poller/EpollPoller.cc:64-94 | brings index and kernel into agreement with the changed mask and touches no other descriptor |
| EpollPollers.EpollPoller.RemoveChannel | muduo/net/poller/EpollPoller.cc:96-114 | the descriptor is gone from the map and from the kernel, and agreement is kept |
| EpollPollers.EpollPoller.FillActiveChannels | muduo/net/poller/EpollPoller.cc:52-62 | every pointer the kernel hands back is the channel registered for the reported descriptor, with the reported events |
| EpollPollers.EpollPoller.Drive | muduo/net/poller/EpollPoller.cc:64-136 | over any sequence of operations on any channels: a bit is set if and only if it was set last or was set before and never cleared; a channel is registered unless removed since its last change; added exactly when in the kernel set with the channel's mask, and deleted only without events |
| Channels.Channel.HandleEvent | muduo/net/Channel.cc:47-73 | close is called on a hang-up without data, error on an error, read on data or a half-close, write on room; each at most once, in that order; and `handleClose` runs as often as flags and read say |
| Channels.ReportableFlags | muduo/net/Channel.cc:8-10 | what may be reported of a mask, flag by flag |
| Channels.OneAnswer | muduo/net/Channel.cc:47-73 | which callbacks are called and in which order leaves no freedom |
| Channels.DispatchCloses | muduo/net/Channel.cc:50-69 | how often `handleClose` runs among the callbacks of an event, counted from the reported events and the bytes read |
| Channels.ClosesTwice | muduo/net/Channel.cc:50-69 | an event closes a connection at most twice, and twice if and only if it is a hang-up without ordinary data, with urgent data or a half-close, and the read returns nothing |
| Http.Fragmentation | muduo/net/http/HttpContext.cc:81-142 | continuing on leftover and new bytes equals parsing all at once, in answer, request, state and unread bytes, and the first call refuses nothing that a single call accepts, if and only if the boundary is not after a bad header line, not after a completed body and not inside a body |
| Http.Chunking | muduo/net/http/HttpContext.cc:81-142 | over any fragments, the last call equals a single call and no call refuses what the single call accepts, if and only if no boundary is one of those |
| Http.ConsumesWholeLines | muduo/net/http/HttpContext.cc:56-142 | for any state and bytes, a call consumes whole lines and then the body it completes, adds to the header map the in-order fold of the header lines it consumed, and leaves no whole line unread unless it refuses or is done with lines; a body it completes has the announced length and nothing follows, and it goes on expecting one otherwise |
| Http.RequestLineReadBack | muduo/net/http/HttpContext.cc:9-49 | section 3 of RFC 9112: a well-formed request line yields its method, path, query and version |
| Http.OnlyRequestLines | muduo/net/http/HttpContext.cc:9-49 | a line is accepted if and only if it is a known method, a target without a space and one of the two versions, with single spaces between |
| Http.RefusedLineTraces | muduo/net/http/HttpRequest.h:35-48 | what a line that ends after its method, or has an unknown one, leaves in the request |
| Http.RefusedVersionTraces | muduo/net/http/HttpContext.cc:18-44 | what a line with another version leaves in the request |
| Http.BadLinesRefused | muduo/net/http/HttpContext.cc:87-133 | a first line that is no request line is refused and stays unread, and a header line without a colon is refused and dropped, whatever follows |
| Http.FieldsReadBack | muduo/net/http/HttpContext.cc:103-133 | section 5 of RFC 9112: a block of field lines and a blank line yields the fold of the lines and consumes just those |
| Http.RequestReadBack | muduo/net/http/HttpContext.cc:81-142 | a written request is read back whole, and the bytes after it are left unread or judged as its body |
| Http.LastFieldWins | muduo/net/http/HttpRequest.h:59-67 | of several fields with one name the last value is the one found |
| Http.OtherFieldsKeep | muduo/net/http/HttpRequest.h:59-83 | fields with other names do not change what a lookup finds |
| Http.CaseAndPaddingIgnored | muduo/net/http/HttpRequest.h:59-67 | section 5.1 of RFC 9110: two names or values are stored as the same text if and only if, without the blanks around them, they are equal up to the case of letters |
| Http.CanonicalOf | muduo/net/http/HttpRequest.h:106-109 | what is stored of any text is the text between its outer blanks with capitals made small and every other character as it is |
| Http.PostReadBack | muduo/net/http/HttpContext.cc:56-79 | section 6.3 of RFC 9112: every written POST, with any fields, completes if and only if the bytes after the blank line number its last Content-Length, as `atoi` and the comparison read it; they become the body and nothing is left unread |
| Http.PostWithBody | muduo/net/http/HttpContext.cc:56-79 | a POST whose last length field, its name in any case and with blanks anywhere around name and number, gives the length of the body in decimal is read back with that body, for every body below 2^31 bytes |
| Http.LengthKept | muduo/net/http/HttpContext.cc:61-63 | a Content-Length comes through `atoi` and the comparison as it is if and only if it is below 2^31 or is 2^64-1 |
| Http.PostHonoursLength | muduo/net/http/HttpContext.cc:56-79 | the announced number is the length that completes the request, for every body, if and only if it is one of those |
| Http.LargeLengthCompletes | muduo/net/http/HttpContext.cc:56-79 | a POST that announces 4294967296 bytes is complete without any |
| HttpContexts.HttpContext.Reset | muduo/net/http/HttpContext.h:34-38 | the context is as new if and only if the last request had no body |
| HttpContexts.HttpContext.ParseRequestBody | muduo/net/http/HttpContext.cc:56-79 | the method over the buffer judges the body as the function does |
| HttpContexts.HttpContext.ParseFirstLine | muduo/net/http/HttpContext.cc:87-102 | a round on the request line, over the buffer, is a round of the parse function |
| HttpContexts.HttpContext.ParseHeaderLine | muduo/net/http/HttpContext.cc:103-133 | a round on a header line, over the buffer, is a round of the parse function |
| HttpContexts.HttpContext.ParseRequest | muduo/net/http/HttpContext.cc:81-142 | the loop over the buffer computes the parse function of state and readable bytes, and leaves its unread bytes |
| Text.DigitsValue | muduo/base/JsonValue.h:348-350 | the decimal digits of a number have that number as value |
| Json.ParsePrinted | muduo/base/JsonValue.h:147-178 | parsing the print of a tree, at any depth and before any delimiter, gives the tree but for nulls at the ends of arrays, and leaves the delimiter |
| Json.ParsedIsFaithful | muduo/base/JsonValue.h:67-178 | whatever the text, a parsed tree has only strings that print and parse unchanged and integers from 0 to 2^63-1 |
| Json.NumberRead | muduo/base/JsonValue.h:124-141 | a longest run of digits and dots that begins with a digit is a float with that text if it has a dot, and else its integer value, if that fits a `long long` |
| Json.NegativeNumber | muduo/base/JsonValue.h:348-350 | a negative number is written with sign and digits, which the parser takes for null and does not read |
| Json.UnknownElement | muduo/base/JsonValue.h:95-110 | in an array, text that begins no value, the word `null` included, is read for ever |
| Json.CommaIsOptional | muduo/base/JsonValue.h:99-108 | the comma between two elements may be missing |
| Json.MalformedMember | muduo/base/JsonValue.h:77-86 | anything but a quote where a key should be fails an assertion, and so does a key without a colon |
| Json.TrimIsIdentity | muduo/base/JsonValue.h:95-110 | dropping nulls at the ends of arrays changes nothing if and only if no array, at any depth, ends in null |
| Json.RoundTrip | muduo/base/JsonValue.h:318-365 | print followed by parse is the identity if and only if strings, keys and integers are ones a parse can yield and no array ends in null |
| JsonLoops.ParseObjectLoop | muduo/base/JsonValue.h:147-178 | the branching parser computes the parse function |
| JsonLoops.ParseHashLoop | muduo/base/JsonValue.h:74-94 | the loop over the members computes the parse function, its failed assertions included |
| JsonLoops.ParseArrayLoop | muduo/base/JsonValue.h:95-110 | the loop over the elements computes the parse function, and a round that does not advance is one that never ends |
| JsonLoops.ParseStringLoop | muduo/base/JsonValue.h:111-123 | the loop gathers the bytes up to the closing quote, or runs past the end |
| JsonLoops.ParseNumberLoop | muduo/base/JsonValue.h:124-138 | the loop separates integers from floats and stops at the first other byte |
| JsonLoops.Serialize | muduo/base/JsonValue.h:322-365 | appends exactly the printed text of the tree to what is there |
| JsonLoops.SerializeElements | muduo/base/JsonValue.h:336-347 | the loop over the elements puts separators between them and none after the last |
| JsonLoops.SerializeMembers | muduo/base/JsonValue.h:324-335 | the same for members with their keys |
| JsonPath.FindAfterUpdate | muduo/base/JsonValue.h:388-391 | replacing a member's value changes no lookup of a position |
| JsonPath.GetByIndex | muduo/base/JsonValue.h:376-382 | an index leads on exactly from an array that is long enough, to the element at that place |
| JsonPath.GetByName | muduo/base/JsonValue.h:383-394 | a name leads on exactly from an object with a member of that name, to the value of the first |
| JsonPath.SetMembers | muduo/base/JsonValue.h:426-461 | an insert leaves every member but the first with the key as and where it was, and without such a member the new one is alone |
| JsonPath.GetAfterSet | muduo/base/JsonValue.h:396-461 | after an insert along any keys a get along the same keys reaches the value |
| JsonPath.SetElsewhere | muduo/base/JsonValue.h:426-461 | a get along any path that leaves the keys, through names and indices, finds what it found before, except below the node of the first missing key, which keeps no other member |

## Left out

- TimerQueues.TimerQueue.HandleRead: of rounds that lose entries, or come after a loss, only those in which no time lies before the epoch; in the others the assertions may pass and null entries be dereferenced. Assertions are taken to be compiled in.
- TimerQueues.TimerQueue.CancelInLoop: requires a live timer; the code dereferences a deleted one.
- TimerQueues.TimerQueue.RunOne: says that a callback is called, not what user code does in it; callbacks are scripts of timers to add and cancel, handed to HandleRead.
- Buffers.Buffer.constructor: requires an initial size of at least 8, below which the indices start beyond the array.
- Json.RoundTrip: is over trees without floats and empty containers, because the printer rounds a float to six places and subtracts one from the size of an empty container.
- JsonPath.GetAfterSet: models the update on values and with string keys; the source changes the nodes in place, and an integer key that is missing makes an array of null pointers.
- Timer objects are records in a map from addresses, and their intervals whole microseconds; the delay that the timerfd is given is left out, only the deadline is kept.
- The vector of the heap is modelled as the block of memory that libstdc++ gives it, with writes beyond its size but within its capacity.
- TcpConnections.TcpConnection.HandleEvent: models how many bytes a read returns, not the bytes; the input buffer is the byte queue of module Buffers.
- Events of a connection: failing writes and reads (their results are kept in `size_t`, so those branches cannot be taken) and file sending.
- Callbacks of a connection are finite trees of sends and shutdowns; `closeCallback_` is modelled in TcpServer alone.
- Which events the kernel reports of a socket: any that were asked for, errors and hang-ups, in any combination; that a particular socket never reports some combination is not part of this model.
- Threads are interleaved at the steps between which the mutex is free or an unguarded flag is read; the circular buffer and the task deque are sequences, and the eventfd counter does not saturate.
- The destruction of the server while connections live, and the timing of the destruction of connection objects.
- `EventLoop::quit`, which the loop ignores.
- The array loop of the JSON parser on text where it does not advance is reported as endless instead of looping; reading past the terminator is reported as a fault.
- JSON text with embedded NUL bytes, the value of a float, and the copying and iteration of trees.
- Sockets, Acceptor, InetAddr, File, logging, Exception, CurrentThread, Any, Atomic, Timestamp formatting, HttpResponse, HttpServer and the round robin over loops: system calls, thin wrappers and easy members.
