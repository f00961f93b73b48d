# Verification of the message runtime, the hash table, the survey and the outgoing stream

A Dafny model of the parts of the repository with the most state and the most
interleaving, and proofs about them.  `dafny verify dfyconfig.toml` checks everything.

## What is modelled

**The message-passing core (`msgqueue/`)** is a transition system.  Producers are any
finite set of threads, each with its own program counter; the consumer has one too.
Every atomic operation and every plain read or write of `next`, of the wait flag, of the
semaphore and of the eventfd counter is one step, and a run is any sequence of steps; a
step that is not enabled leaves the state as it is, so blocking is a step that does not
happen.  Memory is a finite map from addresses to nodes.  A freed address may be
allocated again at once, and any access to freed memory sets a fault flag that the
proofs show is never set.  History (`sent`, `called`, ...) is recorded beside the state
and read by no step.

| file | models |
|---|---|
| `MpscMemory.dfy` | nodes, the three memory steps of `push` shared by both queues, the shape invariant and why each step keeps it |
| `Fifo.dfy` | the abstract queue and its histories |
| `Sending.dfy` | each producer's messages, from the beginning of a send to the exchange |
| `IntMpscSteps.dfy`, `IntMpscRuns.dfy`, `IntMpscPops.dfy`, `IntMpscNodes.dfy`, `IntMpscStub.dfy` | `IntMpscQueue`: `pop` step by step, then all runs, what a call returns under interference, the order of the nodes themselves, and the stub's own link |
| `Eventcount.dfy` | `Eventcount`: flag, semaphore and notifying producers, shared by both pipes |
| `MessageQueueSteps.dfy`, `MessageQueueTheorems.dfy`, `MessageQueueProgress.dfy` | `IntMpscPipe` and `MessageQueue` composed: invariants, safety and progress over every run |
| `Future.dfy`, `FutureProgress.dfy` | `promise`, `future` and `State`, and why everybody comes to the end |
| `Requests.dfy`, `RequestsProgress.dfy` | `request` as the product of queue and promises, and why every request is answered |
| `MpscSteps.dfy`, `MpscPops.dfy` | `MpscQueue` with its rotating dummy and destructor, and what a `pop` returns |
| `MpscPipeSteps.dfy`, `MpscPipeRecv.dfy`, `MpscPipeProgress.dfy` | `MpscPipe`: invariants, what `recv` returns and when it waits, and progress |
| `SignaledQueueSteps.dfy`, `SignaledQueueTheorems.dfy`, `SignaledQueueProgress.dfy` | `SignaledQueue` and `Signaler`: invariants, the account of signals, and progress |
| `IntMpscQueue.dfy`, `MpscQueue.dfy`, `MessageQueue.dfy` | the same classes as Dafny objects with real linked nodes, used while no push is in progress |

**`TsHashTable`** (`TsHashTable.dfy`, `TsHashTableRuns.dfy`) is a class over an array of
linked buckets, changed in place by loops as in the source.  The reader/writer lock makes
each operation atomic, so operations are sequential.

**`bitcount` and `perform_survey`** (`Bits.dfy`, `Bitcount.dfy`, `ByteOrder.dfy`,
`Arp.dfy`, `Survey.dfy`): bit operations are defined on natural numbers by recursion on
bits, 32-bit wrap-around is written out, and machines of either byte order are covered.

**The outgoing stream** (`StreamBuffer.dfy`, `StreamLink.dfy`, `StreamLinkEvents.dfy`): the reallocating buffer
and the sending half of `StreamLink` inside its event loop, over a socket that may take
part of what it is offered or fail.  A run is any sequence of calls from outside and of
events; an event reads, sends and rearms the watcher as `onEvent` does, and its two
callbacks may themselves write, disconnect, start or stop the link.

## Assumptions

- Memory is sequentially consistent: the `memory_order_*` arguments are ignored.
- `IntMpscPipe::send` calls `queue.pop()` at `msgqueue/queue/int_mpsc_pipe.hpp:13`.  The
  model has the push followed by the notification that its twin has at
  `msgqueue/queue/mpsc_pipe.hpp:14-17`.
- Slips that only concern compilation, such as `queue->` on a value
  (`msgqueue/queue/mpsc_pipe.hpp:15`) or a missing template argument
  (`msgqueue/signal/signaled_queue.hpp:29`), are read as what was meant.
- A command that itself sends is a producer like any other.
- `SignaledQueue::receive` is called only after a signal: reading a counter of zero fails
  the assertion at `msgqueue/signal/signaler.hpp:23`.
- The event loop delivers an event to a link only while its watcher is started and armed
  for some event.
- The hash of a key is an uninterpreted function: equal keys hash equally.
- `(float)capacity / (float)length >= 0.75` is compared as an exact rational, which
  agrees with `float` as long as both numbers are below 2^24.
- A 64-bit machine with the errno values of Linux; what a socket, `inject` or a command's
  function returns is a parameter.

## What turned out not to hold

- The stub can lead to a node that has been handed out: while it is off the chain its
  `next` is stale.  `IntMpscStub.StubMayPointAtReturned` gives a run.
  `IntMpscStub.StubLink` and `IntMpscStub.StubLinkExact` say when, whatever the caller
  deletes: exactly while the stub is off the chain, its link has not been reset, the head
  has moved on from the node it was skipped for, and that node is not deleted.  Only if
  the node's address is allocated again can the link lead elsewhere
  (`IntMpscStub.ReusedAddress`).  `IntMpscStub.StaleLinkUnused` shows that nobody
  follows the link.
- `SignaledQueue::nullmsg` does not signal, so null messages take the signals of later
  commands; signals are also lost when a `receive` reads 2^31 or more of them, or a send
  finds the counter full (`SignaledQueueTheorems.SignalsLost`).
  `SignaledQueueTheorems.NullMessagesStayBehind` says exactly when every command is called;
  `SignaledQueueTheorems.CommandLeftBehind` gives a run that strands one.  With fewer than
  2^31 messages no signal is lost (`SignaledQueueTheorems.FewMessagesLoseNothing`).
- `processWrite` compares a failed send's -1 as a `size_t`, so called with nothing pending
  it reports a failed send as a completed write: `StreamLink.AttemptReports` says exactly
  when.  The event loop never calls it so, and there every reported completion is one
  (`StreamLink.CompletionsAreHonest`).
- `write` does not arm the watcher, so bytes written to an idle link stay where they are
  until `start` is called again (`StreamLink.WriteToIdleLink`).
  `StreamLink.SendsMoreIfLive` says exactly when anything more can be sent.
- A link whose send failed is never disposed of, nor one that is disconnected while it has
  nothing pending: `StreamLink.DisposedIfReached` says exactly when a link still can be, and
  `StreamLink.IdleDisconnect` gives the second case.
- A second `set_value` on one promise makes its setter dereference a null pointer:
  `Future.SettingTwiceFaults` gives a run, `Future.SecondSetFaults` says that nothing else
  does so in any run, and `Requests.GetYieldsOwnResult` that `request` never does.

## Model

| member | source | states |
|---|---|---|
| MpscMemory.AllocateKeeps | msgqueue/msgqueue.hpp:42-45 | a fresh node, even at a reused address and with garbage in `next`, can enter a push without disturbing chain, pending links or other pushes |
| MpscMemory.PushKeeps | msgqueue/queue/int_mpsc_queue.hpp:25-29 | each of the three memory steps of any thread's push keeps the shape: one chain from head to tail, without repetition, in which exactly the links of pushes between exchange and link are missing |
| MpscMemory.StartPushKeeps | msgqueue/queue/int_mpsc_queue.hpp:53 | a node the consumer owns can be given to a push, no other push holding it |
| MpscMemory.DropKeeps | msgqueue/queue/int_mpsc_queue.hpp:39-46 | moving the head past a node whose link is written keeps the shape and makes the node the consumer's alone |
| MpscMemory.FreeKeeps | msgqueue/msgqueue.hpp:87-92 | freeing a node of the consumer keeps the shape: no link and no push refers to it |
| MpscMemory.WholePush | msgqueue/queue/int_mpsc_queue.hpp:25-29 | a push that nobody disturbs ends with its node behind the old tail, unlinked itself, and touches no other node |
| Sending.SentInOrder | msgqueue/msgqueue.hpp:40-46 | what one producer has exchanged is what it began to send, in its order, all but at most the message whose push is still in progress |
| Fifo.FifoConserves | msgqueue/queue/int_mpsc_queue.hpp:25-62 | in any history of the abstract queue what went in is what came out followed by what is left |
| IntMpscSteps.SendKeeps | msgqueue/queue/int_mpsc_queue.hpp:25-29 | entering a push keeps the invariant and the content |
| IntMpscSteps.PushStepKeeps | msgqueue/queue/int_mpsc_queue.hpp:25-29 | a push step keeps the invariant wherever the consumer is; the content grows by the node's message at the exchange and changes at no other step |
| IntMpscSteps.PopStepKeeps | msgqueue/queue/int_mpsc_queue.hpp:31-62 | a step of `pop` keeps the invariant; only storing the head to return changes the content, by exactly its oldest message, and pushing the stub never does |
| IntMpscSteps.DeleteKeeps | msgqueue/msgqueue.hpp:87-92 | deleting a node received earlier keeps invariant and content |
| IntMpscRuns.ShapeAlways | msgqueue/queue/int_mpsc_queue.hpp:15-62 | the invariant holds after every interleaving of any producers with the consumer |
| IntMpscRuns.RefinesFifo | msgqueue/queue/int_mpsc_queue.hpp:25-62 | every run's history, with pushes taking effect at the exchange, is one of the abstract queue and leaves the queue's content |
| IntMpscRuns.NothingLost | msgqueue/queue/int_mpsc_queue.hpp:25-62 | over every run the exchanged messages are, in order, the popped ones followed by the queued ones: none lost, duplicated or reordered |
| IntMpscRuns.SafeReclamation | msgqueue/msgqueue.hpp:81-95 | a node handed out is allocated, is not the stub, is not reachable from head, tail or any chain node, and is neither node nor `prev` of any push; freed memory was never touched |
| IntMpscRuns.NoLeak | msgqueue/msgqueue.hpp:81-95 | with no push in progress the allocated nodes are the stub, the queued ones and those handed out and not yet deleted |
| IntMpscRuns.MissingLinks | msgqueue/queue/int_mpsc_queue.hpp:25-29 | a link of the chain is missing exactly when a push is about to write it, and then exactly one is |
| IntMpscRuns.EveryLinkingPushMissesALink | msgqueue/queue/int_mpsc_queue.hpp:25-29 | conversely every push between exchange and link stands for one missing link of the chain |
| IntMpscRuns.StubOffChainWhenCleared | msgqueue/queue/int_mpsc_queue.hpp:53 | when `pop` resets the stub's link, the stub is off the chain with no written or pending link into or out of it |
| IntMpscRuns.NullPopMeaning | msgqueue/queue/int_mpsc_queue.hpp:31-62 | `pop` returns null only if at some moment of the call there was no payload or the one missing link was that of the node at the head, or of the node behind a stub at the head, whose producer was between exchange and link |
| IntMpscRuns.PopIsWaitFree | msgqueue/queue/int_mpsc_queue.hpp:31-62 | whatever the producers do, a call of `pop` is never blocked and returns within ten steps of its own |
| IntMpscRuns.EmptyPop | msgqueue/queue/int_mpsc_queue.hpp:31-62 | undisturbed on an empty queue `pop` returns null and leaves memory, head and chain as they were |
| IntMpscRuns.UndisturbedPop | msgqueue/queue/int_mpsc_queue.hpp:31-62 | with every link written and producers quiet, one call returns the oldest payload, and null exactly when there is none |
| IntMpscPops.ReturnsAvailable | msgqueue/queue/int_mpsc_queue.hpp:31-62 | a node whose link is written, at the head or right behind the stub at the head, when a call of `pop` is entered, is what that call returns, whatever producers do meanwhile |
| IntMpscPops.PushesStubExactly | msgqueue/queue/int_mpsc_queue.hpp:48-53 | `pop` pushes the stub exactly if the node it wants to return is the last one when it loads the tail, and answers null at once otherwise |
| IntMpscPops.AccessesAllocated | msgqueue/queue/int_mpsc_queue.hpp:25-62 | in every reachable state each address that a push writes next or `pop` reads next, and each node handed out, is allocated |
| IntMpscNodes.NodesRefineFifo | msgqueue/queue/int_mpsc_queue.hpp:25-62 | for the nodes themselves, whatever they hold, every run's history is one of the abstract queue and leaves the nodes queued |
| IntMpscNodes.ReturnsOldestNode | msgqueue/queue/int_mpsc_queue.hpp:31-62 | `pop` returns the oldest node not yet returned: nodes exchanged = nodes returned earlier, this one, nodes queued; never the stub |
| IntMpscNodes.MessagesOfPayload | msgqueue/queue/int_mpsc_queue.hpp:10-13 | the messages queued are those of the nodes queued, in the same order |
| IntMpscNodes.EnqueuesWhatWasSent | msgqueue/queue/int_mpsc_queue.hpp:25-29 | the messages of the queue's history are those that producers were given to push, in each producer's order |
| IntMpscStub.StubLink | msgqueue/queue/int_mpsc_queue.hpp:36-42 | in every run: the stub's link leads to a node handed out only if the stub is off the chain and its link is not null, not to the head, and to an allocated node; and exactly then unless that address was allocated twice |
| IntMpscStub.StubLinkExact | msgqueue/msgqueue.hpp:81-95 | in every run that reuses no address, whatever the caller deletes, that condition is exact |
| IntMpscStub.StubLinkWithoutDeletes | msgqueue/queue/int_mpsc_queue.hpp:36-42 | if nothing is deleted: exactly if the stub is off the chain and its link is neither null nor to the head |
| IntMpscStub.Partition | msgqueue/queue/int_mpsc_queue.hpp:25-62 | in every run each allocated node but the stub is queued, entering the queue, or handed out, and only one of these |
| IntMpscStub.ReusedAddress | msgqueue/msgqueue.hpp:81-95 | a run in which the condition holds but the stub's link leads to a new node at the deleted one's address |
| IntMpscStub.StaleLinkUnused | msgqueue/queue/int_mpsc_queue.hpp:31-62 | every pointer `pop` holds is on the chain, and what it reads through one is on the chain or null: a stale link is never followed |
| IntMpscStub.StubMayPointAtReturned | msgqueue/queue/int_mpsc_queue.hpp:36-42 | a run after which the stub leads to a node handed out |
| IntMpscQueue.Queue.constructor | msgqueue/queue/int_mpsc_queue.hpp:15-19 | a new queue is valid and empty |
| IntMpscQueue.Queue.Push | msgqueue/queue/int_mpsc_queue.hpp:25-29 | on the heap: the content grows by the node at its end |
| IntMpscQueue.Queue.Advance | msgqueue/queue/int_mpsc_queue.hpp:39-46 | moving the head takes its node off the chain and, unless it is the stub, off the content |
| IntMpscQueue.Queue.Pop | msgqueue/queue/int_mpsc_queue.hpp:31-62 | on the heap: null exactly on an empty queue, otherwise the oldest node, which is then off the queue; the rest stays in order |
| Eventcount.NotifyKeeps | msgqueue/queue/eventcount.hpp:31-36 | a notify step posts what it has begun, and takes back its own announcement only if it sees that nobody waits |
| Eventcount.WholeNotify | msgqueue/queue/eventcount.hpp:31-36 | undisturbed, a notify that finds the flag set clears it and posts one token, and one that does not changes nothing; either way it ends |
| MessageQueueSteps.PostersStay | msgqueue/queue/eventcount.hpp:31-36 | a producer that has put its message in the queue stays responsible until it has posted or has seen that nobody waits |
| MessageQueueSteps.LongRecheck | msgqueue/queue/eventcount.hpp:42-44 | a recheck that sees an unlinked node with others behind it has a producer on its way |
| MessageQueueSteps.NullRecheck | msgqueue/queue/eventcount.hpp:42-48 | a recheck that fails on a non-empty queue has a token or a producer on its way |
| MessageQueueSteps.EventcountProduce | msgqueue/queue/eventcount.hpp:31-36 | producer steps, stale notifiers included, keep the wake-up invariant |
| MessageQueueSteps.EventcountConsume | msgqueue/queue/eventcount.hpp:38-52 | consumer steps, cancelled waits included, keep the wake-up invariant |
| MessageQueueSteps.SysInvNext | msgqueue/msgqueue.hpp:81-106 | every step keeps queue, dispatch order, producer order and wake-up invariants together |
| MessageQueueSteps.SysInvAlways | msgqueue/msgqueue.hpp:81-106 | these invariants hold in every reachable state |
| MessageQueueTheorems.RunDispatches | msgqueue/msgqueue.hpp:81-106 | the commands called are the first messages exchanged, each once, in exchange order; when `run` has returned, it called all before the first null message and everything after that is still queued |
| MessageQueueTheorems.ProducerOrder | msgqueue/msgqueue.hpp:40-46 | what was called of one producer is a prefix of what it began to send, in its own order, and once its sends have ended all it began has been exchanged |
| MessageQueueTheorems.CommandAliveWhileCalled | msgqueue/msgqueue.hpp:81-95 | while a command is called its node is allocated, handed out, off the chain and still holds that command |
| MessageQueueTheorems.NoLostWakeup | msgqueue/queue/eventcount.hpp:19-52 | blocked in `sem_wait` on zero with no producer between exchange and the end of its notification, the queue is empty and the flag is set |
| MessageQueueTheorems.TokensStep | msgqueue/queue/eventcount.hpp:27-36 | waits completed, tokens and pending posts together grow only by an exchange |
| MessageQueueTheorems.IdleRoundsBounded | msgqueue/queue/eventcount.hpp:38-52 | from any state on, completed waits are at most tokens plus pending posts plus messages exchanged since |
| MessageQueueTheorems.ReceiveOne | msgqueue/msgqueue.hpp:81-95 | left alone on a non-empty queue with every link written, `receive` handles the oldest message without waiting, from its first `pop` and from its recheck; only the latter changes the eventcount, by clearing the flag |
| MessageQueueTheorems.Drain | msgqueue/msgqueue.hpp:104-106 | left alone, `run` calls all queued commands up to the first null message in order and without one wait |
| MessageQueueTheorems.IdleRound | msgqueue/queue/eventcount.hpp:38-52 | on an empty queue `out` reaches `sem_wait` having called nothing, with the flag set and the semaphore as it was |
| MessageQueueTheorems.SpinDown | msgqueue/queue/eventcount.hpp:38-52 | on an empty queue every token costs exactly one round, and then `out` blocks on zero with the flag set |
| MessageQueueProgress.SendIsWaitFree | msgqueue/msgqueue.hpp:40-46 | a send in progress is never blocked and ends within six steps of its own, whatever the other threads do |
| MessageQueueProgress.SendBegins | msgqueue/msgqueue.hpp:40-46 | in every reachable state any thread outside `send` can begin one, with any message |
| MessageQueueProgress.NobodyWaitsNobodyPosts | msgqueue/queue/eventcount.hpp:11-52 | as long as `run` has not found the queue empty, the flag is not set and no producer touches the semaphore |
| MessageQueueProgress.FinishAll | msgqueue/msgqueue.hpp:40-46 | from every reachable state the producers' own steps end all sends |
| MessageQueueProgress.BlockedIsDone | msgqueue/queue/eventcount.hpp:19-52 | when they have, a running thread that is blocked on zero has an empty queue and has called every message sent |
| MessageQueueProgress.BlockedOnlyInWait | msgqueue/msgqueue.hpp:81-106 | the running thread is blocked if and only if it is in `sem_wait` on zero or `run` has returned |
| MessageQueueProgress.EverythingHandled | msgqueue/msgqueue.hpp:81-106 | from every reachable state the threads, with no new send, come to a state in which all messages begun are sent and called and the queue is empty, or a null message has ended `run` |
| MessageQueue.MessageQueue.Send | msgqueue/msgqueue.hpp:40-46 | on the heap: the message becomes the newest one queued |
| MessageQueue.MessageQueue.Receive | msgqueue/msgqueue.hpp:81-95 | on the heap: goes to wait exactly on an empty queue; otherwise takes the oldest message, calls it exactly if it is a command, says so, and deletes just its node |
| MessageQueue.MessageQueue.Run | msgqueue/msgqueue.hpp:104-106 | on the heap: calls the commands before the first null message in order, deletes those nodes and the null one, leaves the rest; without one it calls them all and goes to wait |
| Future.NextKeeps | msgqueue/cmd/future.hpp:88-117 | every step of setter, waiters and spurious wake-ups keeps the invariant of a promise set at most once |
| Future.WaitersAreServed | msgqueue/cmd/future.hpp:88-117 | after the broadcast no waiter sleeps; `wait` returns only with the result installed, and with the value that was set |
| Future.ResultIsFinal | msgqueue/cmd/future.hpp:110-117 | once installed, the result never changes |
| Future.SecondSetFaults | msgqueue/cmd/future.hpp:251-261 | in every run a null pointer is dereferenced if and only if the setter takes a step after a second `set_value` |
| Future.SettingTwiceFaults | msgqueue/cmd/future.hpp:251-261 | a run with two calls of `set_value` that dereferences null, with the first result installed |
| Future.WaitProgress | msgqueue/cmd/future.hpp:88-95 | with the result installed every step of a waiter brings it closer to returning and moves no other |
| Future.SomeWaiterMoves | msgqueue/cmd/future.hpp:88-95 | after the broadcast some waiter can always move until all have returned |
| FutureProgress.HolderGoesOn | msgqueue/cmd/future.hpp:88-117 | whoever holds the mutex is never blocked and frees it within two steps of its own, whatever others do |
| FutureProgress.SetterGoesOn | msgqueue/cmd/future.hpp:110-117 | inside `set_value` the setter is blocked exactly while a waiter holds the mutex it wants, and each of its six steps brings it closer to the end |
| FutureProgress.WaiterGoesOn | msgqueue/cmd/future.hpp:88-95 | a waiter is blocked exactly while it sleeps, which it does only before the broadcast, or wants a mutex that is held, or has returned; finding no result it frees the mutex and sleeps |
| FutureProgress.SpuriousWakeIsHarmless | msgqueue/cmd/future.hpp:88-95 | a sleeper that wakes for no reason before the result is there goes back to sleep and changes nothing |
| FutureProgress.EverybodyReturns | msgqueue/cmd/future.hpp:88-117 | from every state in which `set_value` has been called once, the threads' own steps end it and every waiter returns with the value set |
| Requests.ProjectRuns | msgqueue/msgqueue.hpp:48-56 | a run with requests, seen from the queue, is a run of the queue |
| Requests.CalledOnce | msgqueue/cmd/command.hpp:119-125 | a command that is being called has not been called before |
| Requests.RInvNext | msgqueue/cmd/command.hpp:40-50 | each promise is set exactly by the call of its own command, step by step |
| Requests.GetYieldsOwnResult | msgqueue/cmd/future.hpp:174-200 | `get` after `request` yields the value of that request's own command; no promise is set twice, and once the command was called nobody sleeps on it |
| RequestsProgress.RequestBegins | msgqueue/msgqueue.hpp:48-56 | in every reachable state any thread outside `send` can make a request with a new command |
| RequestsProgress.AwaitBegins | msgqueue/cmd/future.hpp:88-95 | any thread can begin to wait on any future at any time |
| RequestsProgress.CallGoesOn | msgqueue/cmd/command.hpp:36-50 | while a request is called, the call, the next step of `run` or the holder of the promise's mutex can go on |
| RequestsProgress.CallFinishes | msgqueue/cmd/command.hpp:36-50 | from every such state the call comes to its end, with the queue and the other promises as they were |
| RequestsProgress.EveryRequestIsAnswered | msgqueue/msgqueue.hpp:48-56 | from every reachable state, with nothing new being sent, each request made so far comes to be called and everybody waiting on its future returns with its command's value, unless a null message ends `run` before |
| MpscSteps.StepKeeps | msgqueue/queue/mpsc_queue.hpp:52-71 | every step keeps the shape behind the dummy and is one the abstract queue allows |
| MpscSteps.RefinesFifo | msgqueue/queue/mpsc_queue.hpp:32-71 | in every run the shape holds, freed memory is never touched, and the history is one of the same abstract queue |
| MpscSteps.PopReturnsTaken | msgqueue/queue/mpsc_queue.hpp:61-71 | `pop` hands out the data of the message it took although it reads it after moving the head |
| MpscSteps.DeletedDummyIsDead | msgqueue/queue/mpsc_queue.hpp:61-71 | the old dummy, when deleted, is off the chain and neither node nor `prev` of any push |
| MpscPops.PopIsWaitFree | msgqueue/queue/mpsc_queue.hpp:61-71 | whatever the producers do, a call of `pop` is never blocked and returns within five steps of its own |
| MpscPops.ReturnsAvailable | msgqueue/queue/mpsc_queue.hpp:61-71 | data whose link is written when a call of `pop` is entered is what that call returns, whatever producers do meanwhile |
| MpscPops.NothingMeaning | msgqueue/queue/mpsc_queue.hpp:61-71 | `pop` answers that there is nothing only if at some moment of the call that was so or the dummy's own link was missing |
| MpscPops.UndisturbedPop | msgqueue/queue/mpsc_queue.hpp:61-71 | with every link written one call takes the oldest data, and answers that there is nothing exactly on an empty queue |
| MpscPops.AccessesAllocated | msgqueue/queue/mpsc_queue.hpp:52-71 | in every reachable state each address that a push writes next or `pop` reads or deletes next is allocated |
| MpscPops.EnqueuesWhatWasSent | msgqueue/queue/mpsc_queue.hpp:52-59 | the data of the queue's history are those that producers were given to push, in each producer's order |
| MpscSteps.Destroy | msgqueue/queue/mpsc_queue.hpp:38-50 | after quiescence the destructor frees every node once, in order, clears the queued data but not the dummy's, and leaves no memory |
| MpscQueue.Queue.Push | msgqueue/queue/mpsc_queue.hpp:52-59 | on the heap: the data becomes the newest content, in a fresh node behind the old chain |
| MpscQueue.Queue.Pop | msgqueue/queue/mpsc_queue.hpp:61-71 | on the heap: succeeds exactly when there is content, hands out the oldest, and frees just the old dummy |
| MpscPipeSteps.NullRecheck | msgqueue/queue/mpsc_pipe.hpp:19-21 | a recheck that fails on a queue with data has a producer on its way |
| MpscPipeSteps.SysInvAlways | msgqueue/queue/mpsc_pipe.hpp:14-21 | shape, conservation and wake-up invariants hold in every reachable state of the pipe |
| MpscPipeSteps.PipeDelivers | msgqueue/queue/mpsc_pipe.hpp:14-21 | what `recv` returned is a prefix of what was sent in exchange order; at most one datum is under way |
| MpscPipeSteps.ProducerOrder | msgqueue/queue/mpsc_pipe.hpp:14-21 | what was received of one producer is a prefix of what it began to send, in its own order, and once its sends have ended all it began has been exchanged |
| MpscPipeSteps.NoLostWakeup | msgqueue/queue/mpsc_pipe.hpp:14-21 | a receiver blocked on zero with no producer on its way has received everything sent |
| MpscPipeRecv.RecvReturns | msgqueue/queue/mpsc_pipe.hpp:19-21 | a step by which `recv` returns appends exactly one datum to what was received, and no other step does |
| MpscPipeRecv.CallsReturnInOrder | msgqueue/queue/mpsc_pipe.hpp:19-21 | in every run as many data were received as calls of `recv` returned, and the i-th call to return returned the i-th datum sent |
| MpscPipeRecv.WaitsBounded | msgqueue/queue/eventcount.hpp:38-52 | from any state on, completed waits are at most tokens plus pending posts plus data exchanged since |
| MpscPipeRecv.RecvOne | msgqueue/queue/mpsc_pipe.hpp:19-21 | left alone with data queued and every link written, `recv` returns the oldest without waiting, from its first `pop` and from its recheck; only the latter changes the eventcount, by clearing the flag |
| MpscPipeRecv.IdleRound | msgqueue/queue/eventcount.hpp:38-52 | on an empty queue `recv` reaches `sem_wait` with nothing returned, the flag set and the semaphore as it was |
| MpscPipeRecv.SpinDown | msgqueue/queue/eventcount.hpp:38-52 | on an empty queue every token costs exactly one round, and then `recv` blocks on zero with the flag set |
| MpscPipeRecv.DrainAndBlock | msgqueue/queue/mpsc_pipe.hpp:19-21 | left alone, a receiver that keeps calling `recv` gets everything queued, in order, and then blocks on zero |
| MpscPipeProgress.SendIsWaitFree | msgqueue/queue/mpsc_pipe.hpp:14-17 | a send in progress is never blocked and ends within six steps of its own, whatever the other threads do |
| MpscPipeProgress.SendBegins | msgqueue/queue/mpsc_pipe.hpp:14-17 | in every reachable state any thread outside `send` can begin one, with any data |
| MpscPipeProgress.NobodyWaitsNobodyPosts | msgqueue/queue/eventcount.hpp:11-52 | as long as no `recv` has found the queue empty, the flag is not set and no producer touches the semaphore |
| MpscPipeProgress.FinishAll | msgqueue/queue/mpsc_pipe.hpp:14-17 | from every reachable state the producers' own steps end all sends |
| MpscPipeProgress.BlockedIsDone | msgqueue/queue/mpsc_pipe.hpp:14-21 | when they have, a receiver that is blocked on zero has received everything sent |
| MpscPipeProgress.BlockedOnlyInWait | msgqueue/queue/mpsc_pipe.hpp:19-21 | the receiver is blocked if and only if it is in `sem_wait` on zero |
| MpscPipeProgress.EverythingReceived | msgqueue/queue/mpsc_pipe.hpp:14-21 | from every reachable state the threads, with no new send, come to a state in which all data begun are sent and received and `recv` is blocked on an empty queue |
| SignaledQueueSteps.SysInvNext | msgqueue/signal/signaled_queue.hpp:26-73 | every step keeps the account of nodes against signals and the order of dispatch |
| SignaledQueueTheorems.SignalConservation | msgqueue/signal/signaled_queue.hpp:26-73 | at every step: nodes queued or in hand = counter + iterations left + sends not yet signalled + null messages ever pushed + signals lost |
| SignaledQueueTheorems.SignalsLost | msgqueue/signal/signaler.hpp:17-28 | no signal is lost in a run exactly if no send finds the counter full and no `receive` reads more than an `int` holds |
| SignaledQueueTheorems.FewMessagesLoseNothing | msgqueue/signal/signaler.hpp:17-28 | in a run with fewer than 2^31 messages no signal is lost |
| SignaledQueueSteps.AsIntIsCongruent | msgqueue/signal/signaler.hpp:23-28 | the `int` that `recv` returns is in range and congruent to the counter modulo 2^32 |
| SignaledQueueTheorems.ProducerOrder | msgqueue/signal/signaled_queue.hpp:26-73 | what was handled of one producer is a prefix of what it began to push, in its own order, and once its sends have ended all it began has been exchanged |
| SignaledQueueTheorems.CommandAliveWhileCalled | msgqueue/signal/signaled_queue.hpp:55-62 | while a command is called its node is allocated, handed out, off the chain and still holds that command |
| SignaledQueueTheorems.SpinHasANode | msgqueue/signal/signaled_queue.hpp:47-65 | while the inner loop spins, the queue holds a node for every iteration left |
| SignaledQueueTheorems.SpinEnds | msgqueue/signal/signaled_queue.hpp:49-64 | once in-flight links are written the next `pop` of the spin returns the oldest node |
| SignaledQueueTheorems.NullMessagesStayBehind | msgqueue/signal/signaled_queue.hpp:45-73 | at rest exactly as many messages, the newest, stay queued as null messages were pushed and signals lost; all commands were called if and only if no signal was lost and none was sent after a null message |
| SignaledQueueTheorems.CommandLeftBehind | msgqueue/signal/signaled_queue.hpp:45-73 | a run at whose end a command is queued for good |
| SignaledQueueProgress.SendIsWaitFree | msgqueue/signal/signaled_queue.hpp:26-33 | a `send` or `nullmsg` in progress is never blocked and ends within four steps of its own, whatever the other threads do |
| SignaledQueueProgress.SendBegins | msgqueue/signal/signaled_queue.hpp:26-33 | in every reachable state any thread outside them can begin either; `nullmsg` has no signal to send |
| SignaledQueueProgress.ReceiveAlone | msgqueue/signal/signaled_queue.hpp:46-67 | a `receive` that nobody disturbs zeroes the counter and handles exactly as many messages as that said, if fewer than 2^31: the oldest, in order |
| SignaledQueueProgress.BlockedOnlyOnZero | msgqueue/signal/signaled_queue.hpp:46-67 | `receive` is blocked if and only if it is about to read a counter of zero |
| SignaledQueueProgress.ComesToRest | msgqueue/signal/signaled_queue.hpp:26-73 | from every reachable state the threads, with no new send, come to rest: all messages begun are sent and the counter is zero |
| TsHashTable.PlaceIsRemainder | libsensor/source/base/ts_hash_table.hpp:56-58 | for a power of two, masking by length - 1 is the remainder, an index of the array |
| TsHashTable.PlaceDoubles | libsensor/source/base/ts_hash_table.hpp:97-123 | after doubling, a hash is at its old place or one old length further |
| TsHashTable.PushFront | libsensor/source/base/ts_hash_table.hpp:109-113 | relinking a bucket in front of its chain keeps all chains disjoint, acyclic and placed by hash, each key once |
| TsHashTable.Bypass | libsensor/source/base/ts_hash_table.hpp:81-90 | unlinking one bucket takes out just that bucket, first or inner, and leaves every other chain as it was |
| TsHashTable.FlattenPlaced | libsensor/source/base/ts_hash_table.hpp:133-151 | the chains, one after the other, list every bucket exactly once |
| TsHashTable.Table.constructor | libsensor/source/base/ts_hash_table.hpp:128-131 | a new table is valid, empty, of length 16 |
| TsHashTable.Table.GetBucket | libsensor/source/base/ts_hash_table.hpp:65-73 | the bucket of the key with its current value, or null exactly for an absent key |
| TsHashTable.Table.StealBucket | libsensor/source/base/ts_hash_table.hpp:75-95 | takes the key's bucket, and only that, out of chains and map; null exactly for an absent key |
| TsHashTable.Table.GetSize | libsensor/source/base/ts_hash_table.hpp:153-155 | the maintained count is the number of keys |
| TsHashTable.Table.Get | libsensor/source/base/ts_hash_table.hpp:157-172 | whether the key is present, and its value; the caller's variable is untouched otherwise |
| TsHashTable.Table.Contains | libsensor/source/base/ts_hash_table.hpp:174-184 | whether the key is present |
| TsHashTable.Table.Add | libsensor/source/base/ts_hash_table.hpp:186-213 | inserts or overwrites and says which; doubles exactly when three quarters full before, at a cost of one move per bucket |
| TsHashTable.Table.SearchAndSet | libsensor/source/base/ts_hash_table.hpp:197-202 | the loop that goes on after a match overwrites exactly one bucket, if any |
| TsHashTable.Table.Replace | libsensor/source/base/ts_hash_table.hpp:215-231 | overwrites a present key only, and says whether it was |
| TsHashTable.Table.Remove | libsensor/source/base/ts_hash_table.hpp:233-249 | removes the key and says whether it was present; no other entry changes |
| TsHashTable.Table.Steal | libsensor/source/base/ts_hash_table.hpp:251-268 | as `remove`, and hands out the value |
| TsHashTable.Table.MoveChain | libsensor/source/base/ts_hash_table.hpp:107-116 | moves every bucket of one old chain once into its new place, leaving the chains still to come intact |
| TsHashTable.Table.ExpandMap | libsensor/source/base/ts_hash_table.hpp:97-123 | doubles the array, moves every bucket exactly once reusing the nodes, keeps the map; each lands in its old chain or one old length further |
| TsHashTable.Table.Destroy | libsensor/source/base/ts_hash_table.hpp:133-151 | deletes every bucket exactly once although it stops as soon as the count is used up |
| TsHashTableRuns.Perform | libsensor/source/base/ts_hash_table.hpp:153-268 | one operation on a real table answers and changes as on a map, and only `add` resizes |
| TsHashTableRuns.RunTable | libsensor/source/base/ts_hash_table.hpp:128-268 | any sequence of operations answers as a map does; length is 16 doubled, load at most 3/4, moves so far exactly 3/4 of the growth, and at most two per `add` |
| Bits.AndOnes | libsensor/source/base/ts_hash_table.hpp:56-58 | masking with k ones keeps the low k bits |
| Bits.LowIsRemainder | libsensor/source/base/ts_hash_table.hpp:56-58 | the low k bits are the remainder modulo the k-th power of two |
| Bitcount.CountsPerDigit | libsensor/source/base/util.c:29 | for any number of octal digits the two subtractions leave each digit's bit count, without a borrow |
| Bitcount.NoCarry | libsensor/source/base/util.c:30 | the shifted addition makes pair sums and carries into no next pair |
| Bitcount.PairsPicked | libsensor/source/base/util.c:30 | for any number of pairs the mask picks out exactly the pair sums |
| Bitcount.CastingOut | libsensor/source/base/util.c:30 | for base-64 digit sequences of any length, a number is its digit sum plus a multiple of 63 |
| Bitcount.NoWrap | libsensor/source/base/util.c:27-31 | none of the 32-bit operations wraps |
| Bitcount.CountIsPopCount | libsensor/source/base/util.c:27-31 | for every 32-bit word the result is the number of set bits |
| ByteOrder.PopCountSwap | libsensor/source/poluter.cpp:28 | the number of set bits is the same in either byte order |
| ByteOrder.AndHtonl | libsensor/source/poluter.cpp:29 | masking commutes with the change of byte order |
| ByteOrder.StoreIsNetwork | libsensor/source/net/arputil.c:61-63 | a word kept in network order lies in memory in network order on either kind of machine |
| Arp.RequestCreate | libsensor/source/net/arputil.c:40-65 | the 42 bytes written are the Ethernet ARP request of the section "Packet format" of RFC 826, byte by byte |
| Arp.FrameLayout | libsensor/source/net/arputil.c:50-63 | every byte of such a frame, as numbers: destination, source, type, header fields, the sender's hardware and protocol address, zeros, and the target's protocol address, high byte first |
| Arp.SetToIp | libsensor/source/net/arputil.c:67-70 | replaces the target address and no other byte |
| Arp.PatchedFrame | libsensor/source/net/arputil.c:67-70 | a patched frame is the frame that would have been created for the new target |
| Survey.MaskGivesNetwork | libsensor/source/poluter.cpp:29 | masking gives the start of the subnet, whose end is still a 32-bit word |
| Survey.NodeCountIsSize | libsensor/source/poluter.cpp:28 | the loop count is the size of the subnet less two, from a mask in either byte order |
| Survey.PerformSurvey | libsensor/source/poluter.cpp:18-42 | for prefixes 2 to 31 the frames ask, once each, for exactly the addresses strictly between network and broadcast address other than the sensor's own, and each is the frame for its target |
| StreamBuffer.Buffer.constructor | libsensor/source/reactor/buffer.hpp:17-21 | a new buffer has the given size, is zeroed and has nothing pending |
| StreamBuffer.Buffer.Processed | libsensor/source/reactor/buffer.hpp:38-40 | drops that many of the oldest pending bytes |
| StreamBuffer.Buffer.Append | libsensor/source/reactor/buffer.hpp:46-51 | the bytes go behind what is pending, growing by their number only when they do not fit |
| StreamBuffer.Buffer.ExpandTo | libsensor/source/reactor/buffer.hpp:63-71 | keeps content and both offsets, zeroes what follows, keeps begin <= r <= w <= end |
| StreamBuffer.Buffer.Reset | libsensor/source/reactor/buffer.hpp:53-55 | rewinds to the beginning and leaves nothing pending |
| StreamLink.Link.Write | libsensor/source/reactor/stream_link.cpp:49-51 | the bytes become pending and nothing else changes, in any state of the link |
| StreamLink.Link.PrepareEvents | libsensor/source/reactor/stream_link.cpp:81-99 | arms the watcher exactly while an OK link has bytes pending, and asks for disposal exactly after a disconnect or read error |
| StreamLink.Link.BufferedSend | libsensor/source/reactor/utils.cpp:23-31 | as many of the oldest pending bytes become accepted as the socket took, none on failure |
| StreamLink.Link.ProcessRead | libsensor/source/reactor/stream_link.cpp:101-120 | what a read does to state and errno, and then its callback to the link |
| StreamLink.Link.ProcessWrite | libsensor/source/reactor/stream_link.cpp:122-134 | the whole effect of one attempt: bytes, state, errno, completion and what its callback does |
| StreamLink.Link.ResetIfDrained | libsensor/source/reactor/stream_link.cpp:130-133 | the buffer is reset only with nothing pending, so no byte is dropped |
| StreamLink.Link.OnEvent | libsensor/source/reactor/stream_link.cpp:12-26 | reads, sends only if still OK, then rearms or disposes |
| StreamLink.Drive | libsensor/source/reactor/stream_link.cpp:12-134 | a real link driven through any run of calls and events ends as the run prescribes, every written byte accepted or pending in order |
| StreamLink.Conservation | libsensor/source/reactor/stream_link.cpp:49-134 | over every run of writes, callbacks and partial or failed sends, accepted followed by pending is what was written |
| StreamLink.StopsForGood | libsensor/source/reactor/stream_link.cpp:12-26 | a link never becomes OK again; once it is not, nothing more is accepted or reported and nothing pending is lost; an error and its errno are final |
| StreamLink.DisposedOnce | libsensor/source/reactor/stream_link.cpp:21-25 | a link is disposed of at most once and gets no event afterwards |
| StreamLink.DisposedIfReached | libsensor/source/reactor/stream_link.cpp:12-26 | some continuation disposes of a link if and only if it is OK or its watcher is started and armed; one in WRITE_ERROR never was and never is |
| StreamLink.IdleDisconnect | libsensor/source/reactor/stream_link.hpp:59-62 | an OK link with nothing pending that is disconnected is never disposed of |
| StreamLink.ErrorIsTheFailure | libsensor/source/reactor/stream_link.cpp:101-128 | READ_ERROR exactly when a read failed other than transiently, WRITE_ERROR exactly when such a send was attempted, with that failure's errno |
| StreamLinkEvents.DisconnectedExactly | libsensor/source/reactor/stream_link.cpp:101-120 | in every run: DISCONNECT exactly if some read returned 0 or the application disconnected an OK link, and no read failed otherwise than to be tried again |
| StreamLinkEvents.QuietEvent | libsensor/source/reactor/stream_link.cpp:12-134 | what an event with idle callbacks does to a link that waits to write, for every answer of the socket: with EINTR (4) or EAGAIN (11) or bytes from the read the same event sends, what the socket takes is accepted, the watcher stays armed while bytes are left, and any other answer ends in its own state |
| StreamLinkEvents.StopSilences | libsensor/source/reactor/stream_link.cpp:77-79 | a link that is stopped sends nothing in any continuation without another `start` |
| StreamLinkEvents.StartArms | libsensor/source/reactor/stream_link.cpp:71-75 | an OK link, when started, can send exactly if bytes are pending |
| StreamLink.AttemptReports | libsensor/source/reactor/stream_link.cpp:122-134 | `processWrite` on its own reports a completed write exactly for an attempt that drains the buffer or one that fails with nothing pending; only the latter is wrong |
| StreamLink.SomethingPending | libsensor/source/reactor/stream_link.cpp:12-19 | an event that comes to the writing half finds bytes pending |
| StreamLink.CompletionsAreHonest | libsensor/source/reactor/stream_link.cpp:12-134 | in every run of the event loop a completion is reported exactly when an attempt takes all pending bytes, at least one, and everything written so far is then accepted |
| StreamLink.SendsMoreIfLive | libsensor/source/reactor/stream_link.cpp:71-99 | without another `start`, some continuation gets a byte accepted if and only if the watcher is started and armed and the link is OK |
| StreamLink.WriteToIdleLink | libsensor/source/reactor/stream_link.cpp:49-51 | bytes written from outside to an OK link with nothing pending are not sent in any continuation without another `start` |

## Left out

- Weak memory: what the `memory_order_*` arguments allow beyond sequential consistency.
- Eventcount, Signaler and State as Dafny classes: they only make sense between threads, so they are part of the transition systems' state; the object versions of the queues and of `MessageQueue` cover use while no push is in progress.
- MessageQueue.MessageQueue.Receive: says that it goes to wait, but not how it is woken, which needs a second thread; `MessageQueueSteps` does.
- Future.SecondSetFaults: two calls of `set_value` that overlap, a data race on the promise; the second begins after the first has finished.
- Future.WaitersAreServed: timed waits, the moved-from value of a second `get`, and promises of type void, whose `set_value` has no storage step: a second call would install a null result instead of faulting.
- SignaledQueueProgress.ReceiveAlone: the number `receive` returns, which is what `recv` read (`SignaledQueueSteps.AsIntIsCongruent`).
- Fairness of the scheduler: progress is stated as bounds on a thread's own steps and as continuations that exist from every reachable state.
- Survey.PerformSurvey: prefix lengths 0, 1 and 32, where the shift or the subtraction leaves its meaningful range, and masks that are not contiguous; a failed `inject` is only logged and changes nothing.
- TsHashTable.Table.Add: rounding of the `float` load test for tables of 2^24 entries and more, and failing allocations.
- StreamLink.Link.ProcessRead: the received bytes themselves (`bufferedRecv` and `m_in`); the reading callback may be called after any read that did not return 0.
- StreamLink.Link.OnEvent: closing the socket and what libev does beyond delivering events to a started and armed watcher.
- StreamBuffer.Buffer.Processed: a count larger than what is pending, which would move `r` past `w`; its one caller on this path never passes one.
- StreamBuffer.Buffer.ExpandTo: `realloc` is modelled as a move, never in place, and is only asked to grow, as its one caller does.
- The concrete hash functions `times33` and `spread_hash`: an arbitrary function of the key is enough.
- `try_recv` of both pipes: it is `pop`.
- Steps that the source has in one function are sometimes split into helper methods here (`Unlink`, `Insert`, `MoveChain`, `Advance`, `TakeLast`, `NoteFailure`, `ResetIfDrained`); their contracts say what part they are.
- `AsyncQueue`, `EventLoop`, acceptor, connector and timer: they depend on libev.
- `CircularBuffer` and `HandlePool`: their own conditions contradict each other, so a model would be of different code.
- `packet_extract.c`: its space check compares an unsigned value with zero.
- Configuration, logging, packet capture, raw sockets and system calls: input and output without state properties.
