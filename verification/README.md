# simplify-muduo: the reactor core, verified

The project models the four stateful pieces of simplify-muduo that depend on each other, and two
compositions of them, and proves what they keep over every run.

**Event loop.** `LoopProtocol` is the cross-thread protocol of `EventLoop`: one step per atomic
action of the loop thread and of any number of other threads (push under the mutex, the wakeup test,
the eventfd write and drain, the quit test, `poll`, the swap, each functor). `LoopTheorems` proves
conservation, order, wakeups, quit and batches over every interleaving. `Reactor.EventLoop` is the
class, with other threads running between any two of its actions; what its methods do is a run of
the protocol.

**Timers.** `TimerSet` is the ordered set of (stamp, pointer); `TimerProtocol` is `TimerQueue` as a
state machine with manual allocation, one kernel timer, expiry batches whose callbacks add and cancel
timers, and other threads that queue both; `TimerInvariants` and `TimerTheorems` hold the proofs;
`Timing.TimerQueue` is the class.

**Output path.** `ByteBuffer.Buffer` is the sliding window over an array, with its index arithmetic
in `BufferLayout`; `Poller` is `Channel` and `Epoll`; `Connection` states what one connection's sends,
write events and close do, and `Tcp.TcpConnection` is the class over all of them.

**Blocking queue.** `QueueProtocol` is `BlockingQueue` under its mutex and condition variable, one step
per action; `Pool` holds the classes `BlockingQueue` and `ThreadPool`.

**End to end.** `SendOrder` composes the event-loop protocol with one connection: `send` from any
thread, through the functor queue and `sendInLoop`, to the wire. `TimerLoop` composes it with the timer
queue: other threads' additions and cancellations travel as functors of the loop's queue, and
`handleRead` is a handler of the loop.

A run is a sequence of enabled steps, `After(start, steps)` is the state it leads to, and lemmas about
`After(Init(), steps)` hold in every interleaving. `EventLoop`, `TimerQueue` and `BlockingQueue` tie their
fields to such a run in `Valid()` (`trace`), so each of those lemmas holds of their objects too; the
methods of `TcpConnection` each move its view as the function of `Connection` that the steps of
`SendOrder` apply. User code on the loop thread follows a program, any program at all, as far as it
likes; so the contracts can say that nothing is queued, sent, added or cancelled there but by the user.
`Environment` takes any number of steps of
the other threads; what system calls return, and when they return, is nondeterministic or a parameter
within the range the kernel guarantees.

## Where the code falls short of what it is for

Each of these is proved with its exact condition and with a run or input that fails; the code was
modelled as it is.

- A functor that the loop's own thread queues before it calls `loop()` writes no wakeup
  (src/EventLoop.cc:55). `SleepsOnlyOnEarlyFunctors`: the functors a sleeping loop leaves unserved are
  exactly those; `EarlyPushSleeps` gives a run.
- A failed `write` in `sendInLoop` makes `message.substr(n, ...)` throw (src/TcpConnection.cc:112).
  `SendConservesBytesIff`: no byte is lost exactly when `write` did not fail, or was not called, or the
  message was empty; `FailedWriteLosesMessage` gives the input.
- After `handleClose` a later backlog is never watched, because an update of a deleted channel deletes
  again (src/Epoll.cc:51). `OutputNeverStallsOrSpins`: EPOLLOUT is registered exactly while the
  connection is open and has a backlog; `ClosedBacklogIsUnwatched` gives a run that leaves one unwatched.
- The comment at src/TimerQueue.cc:113 speaks of restarting timers that were not cancelled; there is no
  such check. `CancelEffectIff`: a cancel has an effect exactly when its timer is in the set, so one
  aimed at a timer of the running batch has none; `CancelledInBatchFiresAgain` gives a run in which a
  callback cancels its own timer and the timer fires again.

## Model

| member | source | states |
|---|---|---|
| LoopTheorems.NoLostWakeup | src/EventLoop.cc:18-59 | in every interleaving, a loop in `poll` with any functor queued that its own thread did not queue before `loop()` has the eventfd readable or a pusher that has not written yet |
| LoopTheorems.SleepsOnlyOnEarlyFunctors | src/EventLoop.cc:48-59 | the functors queued in a loop that only I/O can wake are exactly those its own thread queued before `loop()` and no swap has taken |
| LoopTheorems.EarlyPushSleeps | src/EventLoop.cc:48-59 | that case is reachable: queueInLoop on the loop thread, then `loop()`, sleeps on the functor |
| LoopTheorems.QuitNotSleptThrough | src/EventLoop.cc:39-46 | a loop in `poll` with `_quit` stored has the eventfd readable or the quitting thread's write still to come |
| LoopTheorems.QuitEndsCurrentIteration | src/EventLoop.cc:21-46 | once `_quit` is stored, `poll` returns at most once more, and never if the loop was outside it |
| LoopTheorems.FunctorsRunOnceInPushOrder | src/EventLoop.cc:48-113 | executed, current batch and queue together are the pushes in mutex order; the k-th execution runs the k-th push |
| LoopTheorems.BatchRunsExactlyTheSwapped | src/EventLoop.cc:99-113 | a batch runs exactly the functors present at the swap; those queued meanwhile wait with a wakeup due, `_quit` or not, even if every functor requeues itself |
| LoopTheorems.OneIterationServesAll | src/EventLoop.cc:18-32 | one return of `poll` leads to the execution of every functor pushed before it |
| LoopProtocol.InvStep | src/EventLoop.cc:18-123 | every atomic step of every thread keeps the protocol invariant |
| Reactor.EventLoop.QueueInLoop | src/EventLoop.cc:48-59 | the caller's own steps are exactly its push and then its wakeup test, with any steps of others between; off the loop thread and during a batch the eventfd ends positive |
| Reactor.EventLoop.RunInLoop | src/EventLoop.cc:62-72 | on the loop thread the functor runs once, before it returns, with no call of queueInLoop or quit but the user code's own; from any other thread it is pushed once and the eventfd ends positive |
| Reactor.EventLoop.Quit | src/EventLoop.cc:39-46 | `_quit` is set when it returns, and off the loop thread the eventfd is positive |
| Reactor.EventLoop.Wakeup | src/EventLoop.cc:79-87 | leaves the counter positive, also when the write saturates |
| Reactor.EventLoop.HandleRead | src/EventLoop.cc:115-123 | takes the counter to zero and changes nothing else |
| Reactor.EventLoop.DoPendingFunctors | src/EventLoop.cc:99-113 | executes everything queued before it, in order and to the end, and leaves exactly what was pushed later; no call of queueInLoop or quit but the functors' own |
| Reactor.EventLoop.Poll | src/Epoll.cc:15-29 | blocks until something is ready; the eventfd channel is active only with a positive counter, and at most once |
| Reactor.EventLoop.DispatchEvents | src/EventLoop.cc:25-28 | handles exactly the active channels, each once and in their order, the eventfd's by draining it; no call of queueInLoop or quit but the handlers' own |
| Reactor.EventLoop.Loop | src/EventLoop.cc:18-32 | stops only on `_quit`; after a full iteration everything queued before it has been executed; the channels handled are, turn by turn, exactly those that `poll` returned; every call of queueInLoop or quit is the user code's |
| SendOrder.SendsArriveInOrder | src/TcpConnection.cc:82-118 | over every interleaving the wire is a prefix of whole messages one after the other, and from each caller a prefix of its calls in call order, the rest waiting in that order |
| SendOrder.SleepingLoopHasSentOrWatches | src/TcpConnection.cc:47-118 | when the loop sleeps in `poll`, every message of every caller is on the wire, or in the backlog with EPOLLOUT registered while the connection is open |
| SendOrder.OneIterationTakesEverySend | src/TcpConnection.cc:82-118 | one return of `poll` hands every message sent before it from other threads to `sendInLoop` |
| SendOrder.NotificationsAccounted | src/TcpConnection.cc:47-118 | write-complete functors queued, plus one while a backlog is left, never exceed the messages taken |
| SendOrder.SysStepKeeps | src/TcpConnection.cc:47-118 | every composed step keeps the protocol, the connection and the accounting of calls, messages and notifications |
| SendOrder.ProjectionIsRun | src/EventLoop.cc:18-123 | every composed run is a run of the event-loop protocol |
| Connection.SendKeepsInv | src/TcpConnection.cc:95-118 | `sendInLoop` keeps wire plus backlog equal to the accepted messages, the registration in step, and the accounts |
| Connection.WriteKeepsInv | src/TcpConnection.cc:47-66 | `handleWrite` keeps the same |
| Connection.CloseKeepsInv | src/TcpConnection.cc:68-80 | `handleClose` keeps the same and ends all interest in the descriptor |
| Connection.WriteMovesWhatWasTaken | src/TcpConnection.cc:47-66 | a write event lengthens the wire by exactly the bytes that `write` took, keeps the rest as backlog, and does nothing without a backlog or without progress |
| Connection.SendMovesWhatWasTaken | src/TcpConnection.cc:95-118 | a send accepts its message and lengthens the wire by exactly the bytes that `write` took of it, none if there is a backlog |
| Connection.ActionsKeepInv | src/TcpConnection.cc:16-118 | any takes and sends of a callback keep the invariant and only add to the output |
| SendOrder.OutputNeverStallsOrSpins | src/TcpConnection.cc:47-118 | after every sequence of sends, partial writes and write events: the kernel watches for EPOLLOUT if and only if the connection is open and has a backlog, for EPOLLIN if and only if it is open |
| SendOrder.StepsMoveWhatWasTaken | src/TcpConnection.cc:47-118 | over every run: each step lengthens the wire by exactly the bytes that `write` took in it, only a send accepts a message, and it accepts its own |
| SendOrder.ClosedBacklogIsUnwatched | src/TcpConnection.cc:68-118 | a handler that closes and then sends more than `write` takes leaves a backlog that nobody watches |
| Connection.FailedWriteLosesMessage | src/TcpConnection.cc:95-118 | a failed direct write of a non-empty message throws and leaves the message nowhere |
| Connection.WireIsPrefix | src/TcpConnection.cc:95-118 | the wire carries a prefix of the accepted bytes, and all of them exactly when the backlog is empty |
| Connection.SendConservesBytesIff | src/TcpConnection.cc:95-118 | a send hands over the whole message if and only if `write` did not fail, or was not called, or the message was empty |
| Connection.NotificationsMeanFlushed | src/TcpConnection.cc:47-118 | a write-complete functor is queued exactly when a message goes out at once or a backlog runs empty, and then every accepted byte is out |
| SendOrder.NotifiedOnlyWhenFlushed | src/TcpConnection.cc:47-118 | over every run, a step that queues a write-complete functor queues one, with every accepted byte on the wire |
| Tcp.TcpConnection.constructor | src/TcpConnection.cc:3-11 | built on any thread and wherever its loop stands, a new connection is registered for reading only, with empty buffers |
| Tcp.TcpConnection.SendInLoop | src/TcpConnection.cc:95-118 | the objects move as `Connection.SendInLoop` says, `onWriteComplateCB` is queued once for each note and nothing else is, and no other descriptor's interest changes |
| Tcp.TcpConnection.Send | src/TcpConnection.cc:82-92 | on the loop thread it is `sendInLoop`, exception included; off it, wherever the loop stands, the whole message is pushed as exactly one functor, the eventfd ends positive and the connection is not touched |
| Tcp.TcpConnection.OnMessageCB | src/TcpConnection.cc:135-140 | the queued functor is `sendInLoop` of its message |
| Tcp.TcpConnection.HandleWrite | src/TcpConnection.cc:47-66 | writes from the front of the backlog; the objects move as `Connection.HandleWrite` says, with one push of `onWriteComplateCB` for each note and no other |
| Tcp.TcpConnection.HandleClose | src/TcpConnection.cc:68-80 | the descriptor is out of the poller and stays out whatever `onClose` and the close callback take and send, and the connection is left as they leave it |
| Tcp.TcpConnection.HandleRead | src/TcpConnection.cc:16-45 | appends what arrived and delivers it if there is any; the input and the connection are left as `onMessage` leaves them; closes on end of stream and on reset only; does nothing on a negative descriptor |
| Poller.UpdateBringsInStep | src/Epoll.cc:31-55 | after any update the kernel watches a live channel for exactly its events and a deleted one not at all |
| Poller.BitsOfUpdates | include/Channel.h:25-34 | setting and clearing the two flags is the code's `\|=` and `&= ~` on the mask, and each leaves the other alone |
| Poller.Epoll.Update | src/Epoll.cc:31-55 | ADD, MOD or DEL by the channel's index; other descriptors keep their interest |
| Poller.Channel.EnableWriting | include/Channel.h:27 | adds EPOLLOUT to the mask and registers it |
| Poller.Channel.DisableWriting | include/Channel.h:28 | takes EPOLLOUT from the mask and registers the rest |
| Poller.Channel.EnableReading | include/Channel.h:25 | adds EPOLLIN to the mask and registers it |
| Poller.Channel.DisableReading | include/Channel.h:26 | takes EPOLLIN from the mask and registers the rest |
| Poller.Channel.DisableAll | include/Channel.h:29 | empties the mask and updates |
| ByteBuffer.Buffer.constructor | src/Buffer.cc:3-7 | an empty window behind the eight reserved bytes |
| ByteBuffer.CopyWithin | src/Buffer.cc:78 | the front-to-back overlapping copy moves the bytes unharmed when the target starts before the source |
| ByteBuffer.Buffer.Append | src/Buffer.cc:51-59 | the contents are extended by exactly the data, whether it fits, compacts or regrows |
| ByteBuffer.Buffer.MakeSpace | src/Buffer.cc:66-82 | the contents are kept and the room asked for is there |
| ByteBuffer.Buffer.Prepend | src/Buffer.cc:14-24 | the data comes before the contents if it fits before the reader index, otherwise nothing happens |
| ByteBuffer.Buffer.Retrieve | src/Buffer.cc:26-37 | drops bytes from the front |
| ByteBuffer.Buffer.RetrieveAsString | src/Buffer.cc:44-49 | what is returned and what is left are together what was there |
| ByteBuffer.Buffer.RetrieveAllAsString | src/Buffer.cc:39-42 | returns all contents and leaves none |
| ByteBuffer.Buffer.ReadFd | src/Buffer.cc:84-112 | for every result of `readv` the contents are extended by exactly the bytes read, in stream order, through `extrabuf` and a compacting or regrowing append too; an error changes nothing |
| ByteBuffer.Replay | src/Buffer.cc:3-112 | any sequence of calls leaves what it leaves in a byte queue and returns the same strings, in an array within the memory bound |
| BufferLayout.AppendFits | src/Buffer.cc:51-82 | an append fits after `makeSpace`, which compacts only from beyond the reserve and otherwise really grows |
| BufferLayout.EmptiedIsRecentred | src/Buffer.cc:26-37 | an emptied buffer has all its storage but the eight reserved bytes to write to |
| BufferLayout.ReserveStaysFree | src/Buffer.cc:14-112 | over every run without a prepend the reserve stays free, so that up to eight bytes can then be prepended |
| BufferLayout.ReadFdLimits | src/Buffer.cc:84-112 | a read brings at most 131071 bytes when `extrabuf` is offered, and cannot overflow when it is not |
| BufferLayout.MemoryBound | src/Buffer.cc:51-112 | over every run the storage stays within max(8 + initial size, peak readable + longest append + 7) |
| BufferLayout.MemoryBoundIsTight | src/Buffer.cc:51-82 | a run reaches that bound |
| TimerTheorems.TimerStaysArmed | src/TimerQueue.cc:23-44 | over every run, while a timer is set the kernel timer holds an expiry no later than max(earliest stamp, last arming + 100us), and no earlier than last arming + 100us |
| TimerTheorems.TimersHaveOneOwner | src/TimerQueue.cc:34-168 | over every run each allocated timer is in exactly one of the queue, the set and the running batch, every key is its timer's stamp, and no timer is used or freed after it was freed and no insertion fails |
| TimerTheorems.FiringsAreSpaced | src/TimerQueue.cc:58-124 | two firings of one timer are at least its interval apart; a one-shot fires once |
| TimerTheorems.HandleReadFiresExactlyTheDue | src/TimerQueue.cc:58-96 | whatever the callbacks add or cancel, a `handleRead` fires exactly the timers set for `now` or earlier, each once, in stamp order |
| TimerTheorems.ResetRestartsOrFrees | src/TimerQueue.cc:109-124 | a repeating timer goes back to the set for one interval from now, a one-shot is freed for good |
| TimerTheorems.ResetHandlesTheBatch | src/TimerQueue.cc:109-136 | whatever other threads queue meanwhile, after `reset` every repeating timer of the batch is in the set for one interval from its turn and every one-shot is freed for good |
| TimerTheorems.CancelledInBatchFiresAgain | src/TimerQueue.cc:34-124 | a cancel of a live timer by its own callback changes nothing, and the timer fires again |
| TimerTheorems.CancelEffectIff | src/TimerQueue.cc:34-44 | a cancel frees its timer if and only if it is in the set, and otherwise changes nothing |
| TimerTheorems.QueuedCancelFindsItsTimer | src/TimerQueue.cc:46-56 | a cancel queued from another thread always runs after the addition of its timer, and finds it |
| TimerTheorems.CancelledNeverFires | src/TimerQueue.cc:34-56 | a timer cancelled out of the set, on the loop thread or from the queue, never fires again, even if its address is used anew |
| TimerTheorems.AddedIsInTheSet | src/TimerQueue.cc:23-51 | an addition on the loop thread is in the set under its stamp, next to all earlier entries |
| TimerTheorems.OwnAddEffect | src/TimerQueue.cc:23-51 | an addition on the loop thread changes only its timer, its entry and, exactly if it is the new earliest, the kernel timer, set for max(stamp, now + 100us) |
| TimerTheorems.QueueingEffect | src/TimerQueue.cc:46-56 | from another thread an addition allocates its timer and goes behind the queue, a cancel only goes behind the queue |
| TimerTheorems.QueuedAddEffect | src/TimerQueue.cc:23-32 | a queued addition adds its timer under the stamp it was made with, arming exactly if it is the new earliest, and changes nothing else |
| TimerTheorems.CancelEffect | src/TimerQueue.cc:34-44 | an effective cancel takes its own entry and timer, and nothing else |
| TimerTheorems.ReadEffect | src/TimerQueue.cc:58-96 | the read takes exactly the due entries, and the kernel timer's expiry if it has come |
| TimerTheorems.FireEffect | src/TimerQueue.cc:58-71 | a callback starts for the next timer of the batch, and its start changes nothing else |
| TimerTheorems.ResetEffect | src/TimerQueue.cc:109-124 | one turn of `reset` restarts or frees its own timer and touches no other |
| TimerTheorems.RearmEffect | src/TimerQueue.cc:126-136 | the end of `reset` sets the kernel timer for max(earliest stamp, now + 100us) if there is an earliest stamp and it is `valid()`, and otherwise leaves it |
| TimerTheorems.StampsChangeOnlyInReset | include/Timer.h:42-50 | a step changes a live timer only if it is that timer's turn in `reset` |
| TimerTheorems.StampKeptOverRun | src/TimerQueue.cc:23-124 | over any run without such a turn a timer keeps its stamp, interval and number |
| TimerTheorems.InvStep | src/TimerQueue.cc:23-171 | every step of the timer machine keeps ownership, keys, arming, spacing and queue order |
| TimerInvariants.FinishResetKeepsArmed | src/TimerQueue.cc:126-136 | skipping the re-arming for a stamp that is not `valid()` is safe: a callback of the batch has armed the timer |
| TimerInvariants.TakeExpiredKeepsOwnership | src/TimerQueue.cc:83-96 | the cut moves exactly the due entries from the set to the batch, leaves exactly the later ones, and every timer keeps one owner |
| TimerSet.SentinelCutsAtNow | src/TimerQueue.cc:83-96 | the sentinel (now, UINTPTR_MAX) cuts the set exactly between stamps up to `now` and later ones |
| TimerSet.InsertedIsSorted | src/TimerQueue.cc:153-171 | an insertion keeps the order and adds exactly its entry |
| TimerSet.ErasedIsSorted | src/TimerQueue.cc:34-44 | a removal keeps the order and takes exactly its entry |
| TimerLoop.SleepingLoopCoversEveryTimer | src/TimerQueue.cc:23-51 | over every interleaving of loop and timers: when the loop sleeps in `poll`, every timer any thread has added and nobody freed is in the set, and the kernel timer covers its stamp |
| TimerLoop.RemoteCancelIsEffective | src/TimerQueue.cc:34-56 | a cancel from another thread finds its timer in the set when the loop runs it, and frees it |
| TimerLoop.OneIterationRunsEveryTimerFunctor | src/TimerQueue.cc:46-56 | one return of `poll` runs every addition and cancel queued before it, in order |
| TimerLoop.LoopRunsTheNextTimerFunctor | src/TimerQueue.cc:46-56 | the timer functor the loop takes from its batch is the next one the timer machine expects, and runs unless it cancels a dead timer |
| TimerLoop.InvStep | src/EventLoop.cc:18-113 | every composed step keeps both machines' invariants, and the timer queue's view of its functors equal to the loop's batch and queue |
| TimerLoop.ProjectionsAreRuns | src/TimerQueue.cc:13-71 | every composed run is a run of the event loop and a run of the timer queue |
| Timing.TimerQueue.HandleRead | src/TimerQueue.cc:58-71 | with callbacks and other threads acting meanwhile: fires exactly the due timers, once and in order, adds and cancels nothing but what the callbacks ask for, and leaves the kernel timer covering the earliest entry |
| Timing.TimerQueue.GetExpired | src/TimerQueue.cc:83-96 | returns the due entries and leaves the others |
| Timing.TimerQueue.RunFirstQueued | src/TimerQueue.cc:23-56 | takes the first queued functor: an addition puts its timer in the set under the stamp it was made with, arming if it is the new earliest; a cancel takes the timer it names out of set and heap, and no other |
| Timing.TimerQueue.AddTimer | src/TimerQueue.cc:46-51 | the id returned leads to the new timer, which on the loop thread joins the set at once, arming if it is the new earliest, and from any other goes behind the queue |
| Timing.TimerQueue.CancelTimer | src/TimerQueue.cc:53-56 | on the loop thread the timer's entry is taken out of the set and the timer freed, or nothing changes if it has none; from any other the cancel goes behind the queue and nothing else changes |
| Timing.TimerQueue.Insert | src/TimerQueue.cc:153-171 | inserts the timer under its stamp and says whether it is the new earliest |
| Timing.TimerQueue.Reset | src/TimerQueue.cc:109-137 | every repeating timer of the batch is back in the set for one interval from its turn, every one-shot is freed, and nothing fires |
| Timing.FindLowerBound | src/TimerQueue.cc:83-96 | finds the first entry not less than the one given |
| Timing.ToTimespec | src/TimerQueue.cc:173-187 | seconds and nanoseconds add up to the delay, which is never less than 100us |
| QueueProtocol.NoLostWakeup | include/BlockingQueue.h:17-42 | for any number of producers and consumers and with spurious wakeups: while anybody sleeps, the queue is no longer than the number of woken threads yet to look at it, plus the lock holder if it is about to signal or to take |
| QueueProtocol.SleepersHaveDrainedTheQueue | include/BlockingQueue.h:17-42 | consumers are never all asleep on a non-empty queue; when they sleep, everything put has been handed out once, in order |
| QueueProtocol.FifoAndExclusive | include/BlockingQueue.h:17-42 | elements leave in the order of the puts, and one thread at a time is inside the lock |
| QueueProtocol.InvStep | include/BlockingQueue.h:17-42 | every step of every thread keeps exclusion, order and the count of threads on their way |
| Pool.BlockingQueue.Put | include/BlockingQueue.h:17-30 | a finished put has pushed its element, once, and left the lock; an unfinished one has pushed nothing |
| Pool.BlockingQueue.Take | include/BlockingQueue.h:32-42 | a finished take has popped the element it returns and no other; an unfinished one has popped nothing and still waits |
| Pool.BlockingQueue.Notify | include/Condition.h:23-26 | exactly one sleeper becomes woken if there is one, and nothing else changes |
| Pool.BlockingQueue.Wait | include/Condition.h:19-22 | `wait` comes back with the lock held and the test still to be made |
| Pool.ThreadPool.AddTask | include/ThreadPool.h:31-41 | without workers the task runs at once, with workers it is put in the queue, once |
| Pool.ThreadPool.RunInThread | include/ThreadPool.h:44-51 | a worker runs every task it takes, once each, in the order the queue hands them out |

## Left out

- System calls (`epoll_wait`, `readv`, `write`, `timerfd_settime`, `eventfd`): nondeterministic results within the range the kernel guarantees; console output and debug strings do not exist.
- Memory model: `_quit` and `_callingPendingFunctors` are read and written as sequentially consistent.
- SendOrder.SendsArriveInOrder: assumes that `write` in `sendInLoop` does not fail; a failure is covered for one step by `Connection.SendConservesBytesIff`, because the exception it causes ends the loop unless user code catches it.
- SendOrder: one connection; the functors and pushes of all others are `Task` functors of the same queue.
- Reactor.EventLoop.Loop: observed for a bounded number of iterations, since `loop()` itself need not end; the theorems about runs have no such bound.
- Pool.BlockingQueue.Take: observed for a bounded number of turns, since it may wait for ever; likewise `Put`, `Acquire` and `Wait`, and `RunInThread` for a bounded number of tasks.
- TimerProtocol: a cancel runs only with an id whose timer is alive, as the code needs, since it reads the timer through the pointer and never compares `_sequence`; of src/TimerQueue.cc:41-42 the model removes the entry found and then frees that timer.
- TimerProtocol: reading the clock and setting the kernel timer in `resetTimerfd` are one instant, on one clock that never runs backwards and starts above zero; intervals are whole microseconds.
- Integer widths: stamps, sizes and sequence numbers do not overflow, and message sizes fit in an `int`; the saturation of the eventfd counter is modelled.
- Aliasing into a buffer: `append` and `prepend` take their bytes by value, so appending part of the same buffer through a raw pointer is not covered.
- `Channel::handleEvent`, the order of close, read and write callbacks of one event: the connection model allows them in any order.
- Object lifetime of connections and channels, and the connection map of `TcpServer`.
- Acceptor, Connector, TcpClient, Thread, EventLoopThread and its pool, Timestamp formatting and the `double` conversions: system-call plumbing, or easy.
- ThreadPool shutdown (workers never stop) and the unlocked `getCurrenTaskSize`.
