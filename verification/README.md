# ksocket: a Dafny model of its protocols and data structures

The project models the part of ksocket that lives in memory: the reference-counted socket contexts,
buffers and write requests of a container; the queue thread with its posters, worker and loop thread;
the block-recycling circular buffer and the frame splitter of the echo server that sits on it; the
protobyte writer and reader; the id table; and the intrusive lists under all of them. libuv appears
only as an environment that delivers steps. `dafny verify dfyconfig.toml` checks everything.

| file | what it models |
|---|---|
| `Sockets.dfy` | container state, the C functions on it, the transition system, and what every step keeps |
| `SocketRuns.dfy` | whole runs: no failed assertion, when libuv aborts, ids, conservation, callbacks, destroy |
| `SocketFates.dfy` | one connection among many: what moves it, listeners, welcomes |
| `SocketRest.dfy` | progress: the callbacks libuv owes run out; stop, drain, destroy |
| `Containers.dfy` | the same C functions as methods that update contexts, buffers and requests in place |
| `ContainerRuns.dfy` | every run of the model, performed on the objects |
| `QueueThread.dfy` | any number of posters, the worker and the loop thread as interleaved atomic actions |
| `LockedQueue.dfy`, `ListHeads.dfy` | the locked queue, and `list.h` on real `next`/`prev` links |
| `CircularBuffer.dfy` | the byte FIFO over 4096-byte blocks |
| `Splitter.dfy` | the meaning of a framed stream, and the deframing loop |
| `KsBuffer.dfy` | the buffer that moves from 512 inline bytes to growing heap blocks |
| `Protobyte.dfy`, `Bytes.dfy` | the tagged format, its writer and reader, two's complement |
| `Table.dfy` | the chained hash table, with enumeration whose callback removes entries |

## How the environment is modelled

A socket `Step` is a call from outside or a libuv callback, and carries libuv's answer (`ok`) where
the code asks for one. libuv calls back each accepted write, connect and shutdown request once, and
all of them before the close callback of their handle; a second `uv_close` ends the run
(`UvAbort`), and so does a failing `assert` of the code (`AssertionFailed`). User callbacks act through
steps of their own. What users hold, what libuv still owes, and which of `connected` and
`disconnected` were called are ghost history: no C function reads them.

A queue-thread `Action` is one critical section, semaphore call or async send. Nothing is assumed
about the scheduler. Integers are unbounded except where the source's width decides an outcome: the 32-bit
size product and counts of protobyte, and the 16-bit length of a frame, are cut as the code cuts them.

## What turned out false, and when exactly it holds

* **Restarting the queue thread.** A start that finds orders in the output queue can lose their wakeup
  (`QueueThread.RestartOrphans` is a run). Left alone after the start, the thread completes everything if and
  only if, at the call of `ks_queue_thread_start`, the output queue is empty, or an order waits in the input
  queue, or a poster is past the size check (`QueueThread.StartLosesIff`; `QueueThread.StartLoses` for
  runs with further posts).
* **Destroying the queue thread.** Once the stop has returned and every poster past the size check has pushed,
  both assertions hold if and only if, at the call, every accepted order was completed and no poster was past
  the check (`QueueThread.DestroyAsserts`); `QueueThread.DestroyFails` is a run in which one fails.
* **Second `uv_close`.** A write that `uv_write` refuses closes the handle but leaves the status
  ESTABLISHED, so the next close aborts; a stream that ends during a shutdown does the same to the shutdown
  callback. `Sockets.StepIsFine` says for each step exactly when it aborts, `SocketRuns.CalmIff` in which
  states some step can, `SocketRuns.CarefulFromInit` that a run without the two never aborts, and
  `SocketRuns.RefusedWriteRun` and `SocketRuns.ReadEndRun` are aborting runs from a fresh container.
* **`disconnected` after `connected`.** It is called exactly once, unless a refused write closed the
  connection: then never (`SocketRuns.FarewellIff`, with the run `SocketRuns.LostFarewellRun`). When the close
  callback comes, an announced connection has its one farewell exactly if the status is CLOSING
  (`SocketRuns.FarewellByStatus`). Announced or not, `disconnected` is called as often as a connection was
  ended by its peer, a close, or a shutdown that was completed or refused, and that is at most once
  (`SocketRuns.FarewellsAreLeaves`); so it is also called for a connection that a full container shuts down
  and that was never announced (`SocketRuns.FarewellWithoutWelcome`).
* **Stop, then destroy.** Whatever libuv answers in the callbacks that are due after `ks_socket_stop`, the
  assertions of destroy hold once they have all come, if and only if at the call of `ks_socket_stop` no user
  held anything, and no context was connecting or between its allocation and its first use
  (`SocketRest.StopIsSafeIff`; `SocketRest.StopThenDestroy` for each single run of callbacks). Connecting
  contexts are the trap, because the stop passes them over (`SocketRest.StopMissesConnecting`).
* **Protobyte sizes.** `usingsize` is the serialized size exactly if no array has 2^32 bytes or more
  (`Protobyte.SizesAgreeIff`), and the encoding together with `usingsize` determines the members exactly then
  (`Protobyte.DecodableIff`): every larger array shares its encoding with a different one
  (`Protobyte.OversizedArraysCollide`).
* **Protobyte reads.** The matching read gives a member back exactly if a blob is non-empty and an array
  has at most 2^31 - 1 bytes (`Protobyte.ReadsBackIff`).
* **Frames.** A payload comes back exactly if it has at most 65535 bytes (`Splitter.FrameComesBackIff`).
* **Cut and splice.** Splicing a cut part back restores a list exactly as its documentation suggests,
  except that an empty list receives whatever the other list held (`ListHeads.CutThenSplice`).

Where comments and code disagree the model follows the code: `ksocket.h` line 509 says that resetting a circular
buffer frees surplus blocks, and the code keeps every block.

## Model

| member | source | states |
|---|---|---|
| Sockets.StepIsFine | ksocket.c:1551-1634 | every enabled step, in any state satisfying the invariant, trips no assertion, aborts exactly when it would close a closing handle, and otherwise keeps the invariant |
| Sockets.PoolStepIsFine | ksocket.c:2197-2255 | the same for taking, sending, giving back and dropping pooled objects |
| Sockets.OpeningIsFine | ksocket.c:1643-1822 | the same for the steps that open a handle, accept, connect, start reading or meet the end of a stream |
| Sockets.ConnectedIsFine | ksocket.c:1690-1727 | the same for the connect callback with each answer of libuv |
| Sockets.CloseCallIsFine | ksocket.c:2347-2365 | the same for a close in whatever status |
| Sockets.ShutdownCallIsFine | ksocket.c:2324-2345 | the same for a shutdown, refused or not |
| Sockets.ShutdownDoneIsFine | ksocket.c:2309-2322 | the same for the shutdown callback: it aborts exactly if the handle is closing already |
| Sockets.SendIsFine | ksocket.c:2257-2307 | the same for a send, accepted, refused by libuv, or refused for its status |
| Sockets.ActivateKeeps | ksocket.c:1553-1582 | taking a context from the inactive list or from the allocator keeps lists, table and counts consistent |
| Sockets.AddRefKeeps | ksocket.c:1583-1587 | a further reference of a user keeps the invariant |
| Sockets.DereferenceKeeps | ksocket.c:1591-1613 | dropping a user's reference satisfies both assertions and keeps the invariant, also when it recycles the context |
| Sockets.GiveBackKeeps | ksocket.c:1615-1634 | so does dropping the handle's reference once no write, shutdown or connect is outstanding |
| Sockets.BufferNewKeeps | ksocket.c:2205-2220 | a buffer that is handed out is empty, and the two buffer lists stay a partition |
| Sockets.BufferAddRefKeeps | ksocket.c:2199-2203 | a further reference to a buffer in use leaves its content |
| Sockets.BufferDereferenceKeeps | ksocket.c:2223-2231 | the last reference empties the buffer and moves it to the free list |
| Sockets.AttachKeeps | ksocket.c:2262-2282 | a write in flight holds one reference on its context and one on its buffer, and is on one sendorder |
| Sockets.DetachKeeps | ksocket.c:2233-2255 | the write callback gives both references back without tripping an assertion |
| Sockets.RefusedFields | ksocket.c:2286-2297 | after a refused write everything is as before, except that the pool may have gained the new request |
| Sockets.RefusedResult | ksocket.c:2286-2300 | a refused write ends with the handle closing and the status unchanged, or aborts if it was closing |
| Sockets.NoWritesLeft | ksocket.c:1597-1599 | once libuv has called back all writes of a handle its sendorder is empty |
| SocketRuns.InitInv | ksocket.c:1464-1506 | a fresh container, with any number of pooled objects, satisfies the invariant |
| SocketRuns.RunsAreSafe | ksocket.c:1591-1613 | in every run the assertions hold and the invariant is kept |
| SocketRuns.CarefulRunsNeverAbort | ksocket.c:2257-2365 | no second close happens in a run without a refused write and without a read ending during a shutdown |
| SocketRuns.CarefulFromInit | ksocket.c:1464-1506 | in particular in no such run of a fresh container |
| SocketRuns.CalmIff | ksocket.c:2257-2365 | some step that can come next aborts if and only if a closing handle is still ESTABLISHED or waits for its shutdown callback |
| SocketRuns.RefusedWriteThenClose | ksocket.c:2286-2300 | whenever a write is refused, a close by the user right after it aborts |
| SocketRuns.ReadEndThenShutdownDone | ksocket.c:1643-1665 | whenever a read ends during a shutdown, the shutdown callback aborts, and the close callback cannot come first |
| SocketRuns.RefusedWriteRun | ksocket.c:2286-2300 | seven steps from a fresh container end in the abort over a refused write |
| SocketRuns.ReadEndRun | ksocket.c:1643-1665 | seven steps from a fresh container end in the abort over a stream that ends during a shutdown |
| SocketRuns.LostFarewellRun | ksocket.c:2286-2300 | from a fresh container an announced connection is given back without `disconnected` |
| SocketRuns.ReferenceCounts | ksocket.c:1591-1613 | in every run a count is one for the open handle plus the writes in flight plus the users' references; at zero nothing is left and the context is uninitialised |
| SocketRuns.StaleIdsNeverResolve | ksocket.c:2367-2370 | an id that finds nothing never finds anything later, and one that finds something never finds another context |
| SocketRuns.FindsActive | ksocket.c:2367-2370 | in every run an id finds a context if and only if it is the current id of that active context |
| SocketRuns.DestroyAsserts | ksocket.c:2385-2392 | both assertions of destroy hold if and only if all handles, references and writes have been given back |
| SocketRuns.BuffersPartition | ksocket.c:2197-2231 | in every run a buffer is on exactly one list, the free one iff no user and no write in flight refers to it, and then it is empty |
| SocketRuns.RequestsPartition | ksocket.c:2233-2307 | in every run a write request is in the pool, or in flight and on the sendorder of exactly one context |
| SocketRuns.NothingIsLost | ksocket.c:2197-2307 | no run loses a context, a buffer or a write request |
| SocketRuns.FarewellIff | ksocket.c:1615-1634 | when a handle is given back `disconnected` was called at most once, and after `connected` exactly once iff no refused write closed it |
| SocketRuns.FarewellByStatus | ksocket.c:1615-1634 | the close callback gives one farewell iff the flag asks for it, and an announced connection has then had exactly one if its status was CLOSING and none otherwise |
| SocketRuns.FarewellsCounted | ksocket.c:2309-2365 | the farewells given or still due grow by one with a read end, a shutdown callback, and a close or a refused shutdown of an ESTABLISHED context, and with no other step |
| SocketRuns.FarewellsAreLeaves | ksocket.c:1551-2365 | from the moment a context is handed out until it is handed out again they number those steps, of which there is at most one |
| SocketRuns.FarewellWithoutWelcome | ksocket.c:1790-1801 | six steps from a fresh container: a connection beyond the maximum gets `disconnected` without ever having got `connected` |
| SocketFates.StepMoves | ksocket.c:1551-2365 | the effect of any step on the connection of any context: only the calls and callbacks that name it move its status, its handle and what its user is told, each in its one way |
| SocketFates.FatesAreIndependent | ksocket.h:137-148 | over its whole life a context goes through its statuses as a connection on its own would, whatever happens to the others |
| SocketFates.ListenersAreNeverToldOf | ksocket.c:1886-1889 | a successful bind leaves an open context in LISTEN, and in any run from there neither `connected` nor `disconnected` is called for it or becomes due |
| SocketFates.WelcomedOnce | ksocket.c:1690-1822 | `connected` is called at most once in the life of a context: when reading starts on an accepted connection or after a successful connect, and at no other step |
| SocketRest.RestIff | ksocket.c:1615-1634 | no callback can come if and only if nothing is connecting, shutting down, closing or in flight |
| SocketRest.CallbacksEnd | ksocket.c:1615-2322 | a run of callbacks is never longer than a number read off the state it starts in |
| SocketRest.Settles | ksocket.c:1615-2322 | from a calm state some run of callbacks leads to rest |
| SocketRest.CallbackRuns | ksocket.c:1615-2322 | a run of callbacks from a calm state never aborts, leaves every user's references to every context and buffer as they were, and leaves a handle open for good iff one was so before or a connection attempt succeeds |
| SocketRest.NoneSucceeds | ksocket.c:1690-1727 | where no attempt to connect is under way, none succeeds in a run of callbacks |
| SocketRest.StopIsSafeIff | ksocket.c:2372-2392 | the assertions of destroy hold after a stop and every run of callbacks to rest iff at the call of stop no user holds anything and no context is Raw, INITIALIZED or CONNECTING |
| SocketRest.StopThenDestroy | ksocket.c:2372-2392 | for one run: at rest after a stop the assertions of destroy hold iff, at the stop, nobody held anything and no context was unused, and no attempt to connect succeeded since |
| SocketRest.StopMissesConnecting | ksocket.c:2372-2383 | from a fresh container: a connect under way at the stop succeeds, and a context stays active |
| Containers.Container.constructor | ksocket.c:1464-1506 | the pools have the requested sizes, the objects make the fresh state of the model, no count is above zero, and the first id handed out will be 2 |
| Containers.Container.Acquire | ksocket.c:1553-1582 | the objects change as `Activate` changes the state; the context is the spare one or the first inactive one, has the next id and one reference, and goes to the end of the active list |
| Containers.Container.AddRef | ksocket.c:1583-1587 | only the count of this context changes |
| Containers.Container.Dereference | ksocket.c:1591-1613 | both assertions hold and the objects change as the model says, wherever the model's assertions hold; the last reference, and no other, takes the context off table and active list to the end of the inactive one |
| Containers.Container.BufferAcquire | ksocket.c:2205-2220 | the last free buffer, or a new one, is in use with one reference and no content; its holder is recorded by `NewBuffer` |
| Containers.Container.NewBuffer | ksocket.c:2205-2220 | a user takes and holds the last free buffer, or a new one, empty and with one reference: the model's step, and the invariant is kept |
| Containers.Container.HoldBuffer | ksocket.c:2199-2203 | a user takes and holds a further reference to a buffer in use: the model's step |
| Containers.Container.ReleaseBuffer | ksocket.c:2223-2231 | a user gives a reference to a buffer back: the model's step; with the last one the buffer is emptied and freed |
| Containers.Container.GrowBuffer | ksocket.c:770-774 | a user who holds a buffer makes it longer: the model's step |
| Containers.Container.Hold | ksocket.c:1583-1587 | a user takes and holds a further reference to an active context: the model's step |
| Containers.Container.InitHandle | ksocket.c:2043-2058 | is the model's step: the context is initialised, or given back |
| Containers.Container.Listen | ksocket.c:1824-1889 | is the model's step: the context is in LISTEN with an open handle exactly if libuv agrees, and otherwise CLOSING with its handle closing |
| Containers.Container.BufferAddRef | ksocket.c:2199-2203 | the count grows by one; the first reference resets the buffer |
| Containers.Container.BufferDereference | ksocket.c:2223-2231 | the last reference resets the buffer and moves it to the free list |
| Containers.Container.Attach | ksocket.c:2262-2282 | a pooled or new request refers to context and buffer, each with one reference more |
| Containers.Container.Detach | ksocket.c:2244-2254 | the request is back in the pool and both references are dropped |
| Containers.Container.Send | ksocket.c:2257-2307 | keeps the invariant, does to the objects what the model's send does, and answers 0 iff ESTABLISHED and libuv took the write; an accepted write adds one reference to each object and stands first on sendorder, a refused one leaves all but the handle as it was |
| Containers.Container.WriteCallback | ksocket.c:2233-2255 | keeps the invariant and does what the model's write callback does: the request is off sendorder and last in the pool, and one reference to each object is gone |
| Containers.Container.ConnectionCallback | ksocket.c:1729-1822 | an incoming connection is a run of the model, whichever way libuv answers; it is announced iff everything went well and the container was not full, a full container shuts it down, and every failure leaves it closing or put away |
| Containers.Container.Connect | ksocket.c:2018-2084 | an outgoing connection is a run of the model; the caller gets a connecting context exactly if libuv agrees, a refused connect leaves the handle closing, and a failed initialisation the context put away |
| Containers.Container.ConnectedCallback | ksocket.c:1690-1727 | is the model's step: ESTABLISHED and announced iff the connect and the start of reading succeed, and otherwise CLOSING without a farewell |
| Containers.Container.Close | ksocket.c:2347-2365 | is the model's step, answers 0 iff the context was established or listening; both are CLOSING then, a farewell is due for the connection only, and any other context stays as it is |
| Containers.Container.Shutdown | ksocket.c:2324-2345 | is the model's step, and answers 0 iff established and libuv agrees; a connection is shutting down then, or closing with a farewell due if libuv refuses |
| Containers.Container.ShutdownCallback | ksocket.c:2309-2322 | is the model's step, whenever the handle is not closing already: the user is told, and the handle is closing |
| Containers.Container.ReadEnded | ksocket.c:1643-1682 | is the model's step: the user is told, and the handle closed |
| Containers.Container.AfterClosed | ksocket.c:1615-1634 | is the model's step: the user is told if still due, the status is CLOSED as long as someone holds the context, and the handle's reference is dropped without tripping an assertion |
| Containers.Container.Release | ksocket.c:1591-1613 | a user's dereference is the model's step; it puts the context away iff it was the last |
| Containers.Container.Find | ksocket.c:2367-2370 | finds the active context with this id, and nothing iff no active context has it |
| Containers.Container.Stop | ksocket.c:2372-2383 | every listener and every connection is closing afterwards, a farewell is due for exactly the connections, and nothing else has changed |
| ContainerRuns.PerformStep | ksocket.c:1551-2365 | any step that can come and does not abort is performed by the methods, with the model's result |
| ContainerRuns.Replay | ksocket.c:1551-2365 | any list of steps that can be executed is performed on the objects, and leads to the model's final state |
| ContainerRuns.AcceptAndSend | ksocket.c:1729-2307 | a new container gets, by calls alone, to a write in flight that refers to the accepted connection and the user's buffer |
| QueueThread.InitInv | ksocket.c:1214-1233 | the initial state satisfies the invariant for every limit and number of posters |
| QueueThread.StepKeepsInv | ksocket.c:1166-1276 | every action of every thread keeps semaphore accounts, order, liveness of handle and worker, exit accounts, wakeups and the race bound |
| QueueThread.RunKeepsInv | ksocket.c:1166-1276 | so does every interleaving |
| QueueThread.CompletedInPushOrder | ksocket.c:1166-1212 | completed, in completion, output queue, in hand, in process and input queue concatenate to the accepted orders in push order; freed follows completed |
| QueueThread.PopsNeverFail | ksocket.c:1172-1210 | a worker past the semaphore finds an entry, the completion loop finds the entry it tested for, and the async handle is open when notified |
| QueueThread.JoinMeansProcessed | ksocket.c:1253-1262 | when the join of a stop returns, exactly the orders pushed before its exit order have been processed |
| QueueThread.PostIsAcceptedIff | ksocket.c:1264-1276 | in every reachable state an undisturbed post is accepted iff the input queue holds fewer orders than the limit; it then stands last there with one more wakeup due, and otherwise nothing changes |
| QueueThread.RaceBound | ksocket.c:1264-1276 | with P posters the input queue never holds more than the limit plus P - 1 orders and one exit order |
| QueueThread.RaceBoundIsTight | ksocket.c:1264-1276 | for every positive limit and number of posters some run fills the queue to limit plus P - 1 |
| QueueThread.InternalRunsEnd | ksocket.c:1166-1212 | without new posts, starts and stops the threads come to rest after a bounded number of actions |
| QueueThread.Settles | ksocket.c:1166-1212 | and they can always get there by themselves |
| QueueThread.RestIsComplete | ksocket.c:1166-1212 | at rest no stop is stuck in its join; a started thread has processed all accepted orders, and those not completed are the output queue |
| QueueThread.StartLosesIff | ksocket.c:1235-1244 | left alone after a start, everything is completed iff at the call the output queue was empty, or the input queue held an order, or a poster was past the size check |
| QueueThread.StartLoses | ksocket.c:1235-1276 | with posts after the start, everything is completed iff the output queue was empty, the input queue held an order, or one has been accepted since |
| QueueThread.CleanRunsComplete | ksocket.c:1235-1244 | if every start finds the output queue empty, a started thread at rest has completed every accepted order |
| QueueThread.CleanRunsWake | ksocket.c:1186-1212 | then an order in the output queue always has a pending notification, a running completion loop, or a worker about to notify |
| QueueThread.StartedOnceNeverOrphans | ksocket.c:1235-1244 | the same for every run with at most one start |
| QueueThread.RestartOrphans | ksocket.c:1235-1262 | a second start over a non-empty output queue rests with an order processed and never completed |
| QueueThread.DestroyAsserts | ksocket.c:1288-1294 | whenever the stop inside destroy returns, both queues are empty iff nothing is accepted beyond what was completed at the call; with all posters done, iff at the call everything was completed and no poster was past the check |
| QueueThread.DestroyAssertsStopped | ksocket.c:1288-1294 | destroying a thread that is not running: nothing happens, and both queues are empty iff everything was completed |
| QueueThread.DestroyFails | ksocket.c:1253-1294 | a run after whose stop an order is left in the output queue |
| LockedQueue.Queue.constructor | ksocket.c:1069-1074 | an empty ring and a zero size |
| LockedQueue.Queue.PushFront | ksocket.c:1076-1084 | the links and the size represent the old entries with the new one in front |
| LockedQueue.Queue.PushBack | ksocket.c:1086-1094 | the same with the new one at the back |
| LockedQueue.Queue.IsEmpty | ksocket.c:1096-1107 | true iff there are no entries |
| LockedQueue.Queue.Size | ksocket.c:1109-1119 | the number of entries |
| LockedQueue.Queue.PopFront | ksocket.c:1121-1137 | gives and removes the oldest entry, or nothing iff there is none |
| LockedQueue.Queue.PopBack | ksocket.c:1139-1155 | gives and removes the newest entry, or nothing iff there is none |
| ListHeads.ListHead.constructor | list.h:43-47 | a ring of one |
| ListHeads.InitListHead | list.h:43-47 | a ring of one, whatever the node was |
| ListHeads.AddBetween | list.h:56-64 | in a ring whose links agree in both directions, the entry stands between the two neighbours |
| ListHeads.AddHead | list.h:80-83 | the entry is first |
| ListHeads.AddTail | list.h:94-97 | the entry is last |
| ListHeads.Unlink | list.h:106-122 | the rest is a ring in the old order, and the entry's own links stay |
| ListHeads.Del | list.h:124-129 | the rest is a ring in the old order, and the entry is poisoned |
| ListHeads.DelInit | list.h:162-166 | the rest is a ring in the old order, and the entry a ring of its own |
| ListHeads.MoveTail | list.h:184-189 | the entry is last in its own list |
| ListHeads.MoveTailTo | list.h:184-189 | the entry has gone from one list to the end of the other |
| ListHeads.RotateLeft | list.h:234-242 | the first entry becomes the last; an empty list stays |
| ListHeads.TestsAreRight | list.h:196-251 | empty, last and singular mean zero entries, the last position and one entry |
| ListHeads.CutPosition | list.h:279-291 | the entries up to the given one form the new list and the rest stays, also for a cut at the head; an empty list is left alone |
| ListHeads.Splice | list.h:312-317 | the other list's entries, in order, come first |
| ListHeads.SpliceTail | list.h:324-329 | the other list's entries, in order, come last |
| ListHeads.SpliceInit | list.h:338-345 | as `Splice`, and the other list is empty |
| ListHeads.SpliceTailInit | list.h:355-362 | as `SpliceTail`, and the other list is empty |
| ListHeads.CutThenSplice | list.h:253-345 | cutting anywhere and splicing back restores every list that has entries; an empty one receives the other list's entries |
| ListHeads.BackwardReverses | list.h:56-129 | following `prev` from the head meets the entries in the reverse of the order in which `next` does |
| KsBuffer.AlignIsLeast | ksocket.h:470 | the macro gives the least multiple that is large enough |
| KsBuffer.GrownIsLeast | ksocket.c:745-768 | the capacity after a reserve is the old one if it is enough, and otherwise the least multiple of 512 that is |
| KsBuffer.Buffer.constructor | ksocket.c:701-708 | an empty buffer on its 512 inline bytes |
| KsBuffer.Buffer.Reserve | ksocket.c:745-768 | the content survives every move, the capacity grows just as far as needed and never shrinks |
| KsBuffer.Buffer.SetSize | ksocket.c:770-774 | the size is as asked, the bytes common to old and new size stay, and the capacity is that of a reserve of `size` more bytes |
| KsBuffer.Buffer.Write | ksocket.c:776-788 | the content is the old one followed by the bytes |
| KsBuffer.Buffer.Reset | ksocket.c:805-815 | no content, no heap block |
| KsBuffer.Buffer.AddRef | ksocket.c:721-733 | counts up; the first reference resets, others leave the content |
| KsBuffer.Buffer.DecRef | ksocket.c:735-743 | counts down, and tells whether that was the last reference |
| KsBuffer.WrittenSinceReset | ksocket.c:745-815 | writes since the latest reset, with any reserves between them, add up to their concatenation |
| KsBuffer.Replay | ksocket.c:745-815 | after any run of reserves, writes and resets the buffer shows exactly that |
| CircularBuffer.Ring.constructor | ksocket.c:892-906 | one block of 4096 bytes and no bytes held |
| CircularBuffer.Ring.Queue | ksocket.c:922-961 | appends the bytes across block boundaries; blocks are only added at the end of the list, and exactly as many as the bytes reach into |
| CircularBuffer.Ring.PeekArray | ksocket.c:968-999 | succeeds iff enough bytes are held, gives the oldest ones in order, and changes nothing |
| CircularBuffer.Ring.DequeueArray | ksocket.c:1001-1037 | the same and takes them out; no block is added or lost, bytes beyond the request are not touched, and a block read to its end is given up only by a later dequeue that needs a byte |
| CircularBuffer.Ring.Rotate | ksocket.c:1023-1032 | a block read to its end goes behind the last one, and the held bytes stay the same |
| CircularBuffer.Ring.Empty | ksocket.c:1039-1051 | true iff no bytes are held |
| CircularBuffer.Ring.Reset | ksocket.c:1053-1060 | no bytes are held, and every block is kept |
| CircularBuffer.BlocksBounded | ksocket.c:1062-1067 | a ring has at most peak / 4096 + 2 blocks, where `peak` is what `Replay` shows it to be, and totalsize is 4096 times their number |
| CircularBuffer.Replay | ksocket.c:922-1060 | every sequence of queue, peek, dequeue and reset is answered as by a plain byte FIFO, and ends with at most two blocks beyond those for the most bytes that FIFO ever held |
| CircularBuffer.BytesConserved | ksocket.c:922-1037 | without a reset, the bytes dequeued followed by those held are the bytes queued |
| Splitter.ChunkingIndependence | demo.c:86-134 | frames and remaining bytes depend only on the concatenation of the arrivals |
| Splitter.DeframeInTwo | demo.c:86-134 | deframing a prefix and then the rest with what was left is deframing at once |
| Splitter.DeframeSplits | demo.c:96-133 | frames and rest make up the stream, each frame is a whole one, and the rest starts with none |
| Splitter.DeframeIsUnique | demo.c:96-133 | no other splitting does that |
| Splitter.BrokenForGood | demo.c:103-107 | after a wrong magic no frame ever comes out again, and the bytes pile up |
| Splitter.SentFramesComeBack | demo.c:55-79 | frames with payloads of up to 65535 bytes come back exactly, however they are cut |
| Splitter.FrameComesBackIff | demo.c:23-27 | a single frame comes back iff its payload fits the 16-bit length |
| Splitter.FrameBytes | demo.c:23-27 | a frame on the wire is aa 44, the low byte of the payload's length, its second byte, and the payload |
| Splitter.HeaderBytes | demo.c:96-112 | a stream is broken iff its four header bytes are there and the first two are not aa 44, and starts with a frame iff they are and the bytes the next two count have arrived |
| Splitter.Connection.Arrived | demo.c:86-134 | an arrival delivers the frames of old bytes plus data, keeps the rest, and closes iff what is left starts with a wrong magic |
| Splitter.Connection.PeekHeader | demo.c:98-103 | sees magic and length iff four bytes are held |
| Splitter.Connection.TakeFrame | demo.c:114-132 | the buffer handed out shows exactly the next bytes, which leave the stream |
| Splitter.ReceiveAll | demo.c:86-134 | over a whole connection the callback has seen exactly the frames of the stream |
| Bytes.EncodeDecode | ksocket.c:481-551 | every byte string is the encoding of the number it decodes to |
| Bytes.EncodedByte | ksocket.c:341 | byte i of a stored number has the weight 256 to the power of i |
| Bytes.DecodePrefix | ksocket.c:488-491 | the first k bytes of a stored number are its value modulo 256 to the power of k |
| Bytes.SignedBytesRoundTrip | ksocket.c:481-534 | a signed number stored in n bytes reads back as itself |
| Protobyte.Writer.constructor | ksocket.c:4-17 | no members and no size |
| Protobyte.Writer.PushScalar | ksocket.c:67-175 | one member more, and the size accounts stay right |
| Protobyte.Writer.PushString | ksocket.c:177-193 | the same, the terminator included |
| Protobyte.Writer.PushBlob | ksocket.c:195-210 | the same |
| Protobyte.Writer.PushArray | ksocket.c:212-230 | the same, with the element size cut to 32 bits, which changes it only if the array does not fit 32 bits or is empty |
| Protobyte.Writer.Clear | ksocket.c:35-65 | no members |
| Protobyte.EncodingSize | ksocket.c:237-304 | the computed sizes add up to the length of the encoding |
| Protobyte.SizesAgreeIff | ksocket.c:237-304 | the size kept by the pushes is that sum iff no array outgrows 32 bits, and never less |
| Protobyte.Writer.SerializeAsArray | ksocket.c:306-398 | writes the encoding and returns its size if it fits, with tag, numbers (lowest byte first) and bytes of each member right behind those of the one before; returns 0 otherwise, and never writes at or beyond the given length |
| Protobyte.StoreMember | ksocket.c:306-398 | one member is stored as its encoding, and nothing beside it changes |
| Protobyte.MembersAreThere | ksocket.c:306-398 | in the encoding of a list each member starts where the sizes before it end, and every one of its bytes is as the wire format says |
| Protobyte.SmallExamples | ksocket.h:160-175 | a bool, a char and an unsigned char, byte by byte |
| Protobyte.WordExamples | ksocket.h:160-175 | the four-byte types, byte by byte |
| Protobyte.LongExamples | ksocket.h:160-175 | the eight-byte integers, byte by byte |
| Protobyte.DoubleExample | ksocket.h:160-175 | a double, byte by byte |
| Protobyte.CountedExamples | ksocket.h:160-175 | a string, a blob and an array, byte by byte |
| Protobyte.Ranges | ksocket.c:67-175 | the values each scalar type admits |
| Protobyte.Writer.Serialize | ksocket.c:400-410 | a block of usingsize bytes holds the whole encoding |
| Protobyte.Reader.constructor | ksocket.c:412-420 | a reader at the start of arbitrary bytes |
| Protobyte.Reader.ReadScalar | ksocket.c:422-586 | gives a number iff the encoding of a scalar of that kind, tag included, starts at the position, and it is that number; otherwise the reader stays |
| Protobyte.Reader.ReadString | ksocket.c:588-615 | the same for a string, whose last byte is made a terminator |
| Protobyte.Reader.ReadBlob | ksocket.c:617-643 | the same for a blob, refusing an empty one |
| Protobyte.Reader.ReadArray | ksocket.c:645-678 | the same for an array, with its 32-bit size product |
| Protobyte.ReadScalarIff | ksocket.c:422-586 | over arbitrary bytes a scalar read gives `v` iff the bytes start with the encoding of `v` under that kind's tag |
| Protobyte.ForeignScalarFails | ksocket.c:488-491 | the scalar read of any other member fails |
| Protobyte.ReadStringIff | ksocket.c:588-615 | over arbitrary bytes a string read gives the counted bytes with their last one made a terminator iff the count is positive and they are there, under any tag |
| Protobyte.ReadBlobIff | ksocket.c:617-643 | the same for a blob, unchanged |
| Protobyte.ReadArrayIff | ksocket.c:645-678 | the same for an array, with a signed count, and iff the 32-bit product of count and size is at most 2^31 - 1 |
| Protobyte.ReadsBackIff | ksocket.c:422-678 | the matching read returns a pushed member and consumes just its bytes iff the member is readable |
| Protobyte.ShortReadFails | ksocket.c:422-678 | the matching read of any strict prefix of an encoding fails |
| Protobyte.RoundTrip | ksocket.c:306-678 | serializing and issuing the matching reads returns every value and ends at the end |
| Protobyte.ReplayOfPrefix | ksocket.c:422-678 | on a truncated encoding exactly the members that fit come back, and the failing read consumes nothing |
| Protobyte.CompleteIsMaximal | ksocket.c:422-678 | the members that fit are the longest list of first members whose sizes add up to no more |
| Protobyte.EncodeAllConcat | ksocket.c:306-398 | the encoding of a concatenation is the concatenation of the encodings |
| Protobyte.PrefixFree | ksocket.c:306-398 | within 32-bit sizes no member's encoding is a prefix of another's |
| Protobyte.EncodingIsUnique | ksocket.c:306-398 | within 32-bit sizes different member lists have different encodings |
| Protobyte.OversizedArraysCollide | ksocket.c:212-230 | every array beyond them shares its encoding and its pushed size with a different one |
| Protobyte.DecodableIff | ksocket.c:306-398 | encoding and usingsize determine a list of members iff none of its arrays outgrows 32 bits |
| Protobyte.WriteThenRead | ksocket.c:400-420 | what a writer holds comes back from a reader over its serialization, which ends with pos and npos at the length |
| Table.KsTable.constructor | ksocket.c:1327-1332 | every slot empty |
| Table.KsTable.Find | ksocket.c:1422-1441 | finds what the finite map maps |
| Table.KsTable.Insert | ksocket.c:1341-1381 | adds to the map iff the id is new, as the first node of its chain; a rejected insert changes nothing |
| Table.KsTable.Remove | ksocket.c:1383-1420 | removes from the map, unlinks and frees just that node, and answers whether there was one |
| Table.KsTable.Clear | ksocket.c:1314-1325 | the empty map, every node freed |
| Table.KsTable.Enum | ksocket.c:1443-1462 | with a callback that removes the current entry on any predicate: every entry is visited once, none after it is freed, and the filtered map remains |
| Table.EntriesEachOnce | ksocket.c:1443-1462 | the chains hold each entry of the map once, and nothing else |
| Table.LookupKept | ksocket.c:1383-1462 | searches in a filtered chain find exactly the old entries that were kept |
| Table.Replay | ksocket.c:1341-1441 | every sequence of insert, remove, find and clear is answered as by a finite map, and the count is its size |

## Left out

- `kdb.c`, `kdb.h`, `main.c`: MySQL plumbing and a driver with shallow logic.
- Real sockets, address parsing, listener set-up beyond its bind step, `getsockname`, `getpeername`, and the errors themselves: only whether libuv agrees matters.
- `num_connections`, `client` and `exclude`: the code does not keep the count equal to the live connections (`exclude` survives reuse of a context, the shutdown callback does not count down); the comparison with `max_connections` is a parameter.
- SocketRest.Settles: that libuv does deliver what it owes is not modelled; the theorems are about the runs in which it does.
- Containers.Container.Connect: one method stands for the three address families, after the address has been parsed.
- Containers.Container.Close: user callbacks that call back into close while one is under way are not modelled.
- SocketRuns.StaleIdsNeverResolve: ids are below 2^64; the wrap after that many activations is not modelled.
- Containers.Container.Acquire: what `socket_context_new`, `ks_buffer_create` and `calloc` return are parameters. `active`, `inactive` and the pools are sequences; that the list operations act on links in this way is shown once, in `ListHeads`. The id table is its map, justified by `Table`.
- Containers.Container.Dereference: the atomic increments are ordinary ones; all steps run on the loop thread.
- Sockets.StepIsFine: what user callbacks do inside a step (`send_notify`, `handle_error`) counts as steps before or after it.
- QueueThread.StepKeepsInv: starting again before libuv has finished closing the old async handle, stopping from inside a completion callback, and failing thread or handle creation are not modelled.
- CircularBuffer.Ring.Queue: the block list is a sequence of arrays; `size_t` overflow would need more bytes than an address space has.
- `ks_circular_buffer_destroy`: its loop condition is inverted, so it frees nothing of a non-empty list.
- Splitter.Connection.TakeFrame: the buffer is a fresh one instead of a pooled one; the unreachable failure branch of the dequeue is shown to be unreachable.
- Protobyte.Writer.Clear: members that have been cleared are kept for reuse by the code; the free list is not modelled.
- Protobyte.Reader.ReadString: reads of strings, blobs and arrays check no tag, and the model does not either; what a float means is not modelled.
- Protobyte.SizesAgreeIff: sizes are summed without overflow of 64 bits.
- `ks_buffer_reader_*`, `hlist_*`, `list_replace`, `list_move` (whose comment says head and whose code says tail) and the iteration macros of `list.h`: easy or pointer-to-pointer members.
- Table.KsTable.Remove: freeing a node is leaving the set of live nodes. Allocation failure and raw memory are not modelled anywhere.
- Containers.Container.GrowBuffer: bytes are written by `KsBuffer.Buffer.Write`; to the container only the length matters.
- Containers.Container.Stop: assumes that no refused write and no read ended during a shutdown came before, where the code would abort.
