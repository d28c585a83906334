# suc: verification model

A Dafny model of the event queue, the thread-safe queue, the byte buffer and the descriptor
owners of the suc library, with proofs of what they promise. `dafny verify dfyconfig.toml`
checks everything.

## What is modelled

**The event queue** (`Events`, `FdRegistry`, `Dispatch`, `EventQueue`). The class `EventQueue` has
the source's fields and methods: `Add`, `Mod`, `Del`, `DelSafe`, `Stop`, `IsRunning`,
`HandleEpollFilledEvent` with its cached map iterator, and `Exec` with its nested loops. Map nodes
carry identities, so an iterator to an erased node is dangling even when the descriptor has been
added again. The kernel side (interest list, wake-up counter) is part of the state. Everything
outside the loop thread is an oracle over moments: what each callback does (any finite list of
add, mod, del, stop and throw, with each exception caught or not), what each system call answers,
and by when a stop of another thread has taken effect. All results hold for every oracle.

**exec against stop** (`ExecLoop`, `ExecSafety`, `ExecTheorems`, `ExecLiveness`). The same code as
atomic steps of one loop thread, any number of `exec` calls, any number of `stop` calls from other
threads and from inside callbacks, and unconstrained callbacks. State and exit code are
sequentially consistent atomics in the source, so interleaving is faithful. System calls may fail
at every step, and any thread may close any descriptor but the queue's own; the library's handling
of each failure is modelled.

**The class as the machine** (`Observation`, `DispatchRefinement`). What the methods of the class do,
from construction through client calls, `exec` and client calls after it, is a run of the machine,
and not just any: `Observation` says step by step which actions an environment allows. The waits are
the observed ones in order, the commands of each callback are those of its script up to its end or
the first uncaught exception, calls of `stop` carry the value given, system calls answer as given,
and another thread's stop takes effect when the environment says so. The rules do not mention how
`exec` and the dispatcher are specified.

**The hand-off** (`Handoff`, `HandoffLiveness`, `ThreadSafeQueue`). Producers, mutex, deque, eventfd
counter and the batch loop of the consumer as atomic steps, in finite and fair infinite runs, and
the two classes behind them. `HandoffRefinement` proves that the eventfd callback of the class is a
run of those steps, in which the read, the handler calls, their exceptions and the enqueues during
them are those given.

**Bytes** (`Endian`, `ByteBuffer`). Both implementations of endianness conversion, for every width,
signed or not, and the cursor with its wrapping remaining-space check.

**Descriptors** (`Ownership`, `Lifetime`, `OwnedCallbacks`). `cmn::Fd` with its moves and `epl::Fd`
with its registration, over arbitrary programs and a kernel that reuses numbers, and the latter
together with the dispatcher, whose callbacks create, change and destroy such objects.

## What came out

- No stop is lost unless its eventfd write fails; every fair infinite run with a winning stop ends
  `exec`. A failed write can leave `exec` asleep in state Stopping (`FailedWriteLosesStop`). The
  comment at epl/src/base/EventQueue.cxx:276 says that the queue then stops as soon as the wait
  returns; nothing makes the wait return.
- A callback begins after a stop exactly when one was due that the loop thread had already checked
  the state for; then it is one, and none if a callback was in progress (`LateCallbackExactly`).
  It does happen (`LateCallbackHappens`).
- `exec` can return 1 although a stop with another value has won, because the state changes before
  the code is stored. That stays possible until the store (`ExecCanStillReturnOne`).
- The header describes Stopping as "running and a stop is triggered"
  (epl/include/suc/epl/base/EventQueue.hxx:97). In the code it is also the final state of every
  `exec` that was stopped from a callback (`ExitCodeIsTheWinners`).
- `running` answers true with no `exec` under way exactly after a drain that failed or an exception
  that is not a `std::exception`, until a stop wins (`AbandonedExactly`).
- `del` promises that pending events are not processed any more
  (epl/include/suc/epl/base/EventQueue.hxx:78-85). The code does not keep that for a descriptor added
  again within the batch: `PendingEventSurvivesDel` is a run in which an event fetched before the del
  begins the new callback. A fetched event begins a callback if and only if its descriptor is
  registered, when the loop thread reaches it, with a callback for a reported type
  (`FetchedEventExactly`); between a del and the next registration none begins (`DelSilences`).
- `enqueue` that throws has queued its element all the same, and the element keeps its place: it is
  delivered once the permits consumed exceed the number of elements before it
  (`FailedEnqueueKeepsItsPlace`), while one element stays behind for ever (`StrandedForEver`).
- A constructor of `epl::Fd` whose epoll_ctl fails leaves a registry entry behind; that number can
  not be watched again until the queue's own `del` or `delSafe` is called for it
  (`ConstructionSucceedsExactly`, `OrphanUntilReleased`, `ReleasedIsUsable`). No object does that.

## Assumptions

- Only the loop thread touches the registry while `exec` is under way; before and after it, clients
  do.
- Registration functions change only the callbacks passed to them. Clients never pass the queue's
  own wake-up descriptor to it, nor close it.
- A callback invocation that ends does so after finitely many commands. An exception that is not a
  `std::exception` leaves `exec` at once (`Escape` in `ExecLoop`).
- epoll_ctl, read and write may fail for any reason; they succeed only where the kernel's own rules
  allow it. Statements about all runs allow epoll_wait to return any 1 to 20 events. Runs given as
  examples use only what the kernel can report (`CanReport`). epoll_wait cannot sleep while the
  registered wake-up counter is positive.
- In `Lifetime` and `OwnedCallbacks` clients call the queue directly only to `del` numbers that no
  object owns.
- A run of the hand-off is fair if the loop keeps running: reads do not fail for ever, and a thread
  that waits for the mutex obtains it some time.

## Model

| member | source | states |
|---|---|---|
| Events.CalculateEvents | epl/src/base/EventQueue.cxx:98-113 | the mask holds exactly the event types whose callback is set, listed field by field |
| Events.EveryTypeListed | epl/src/base/EventQueue.cxx:67-74 | the dispatch list names every event type exactly once |
| FdRegistry.OthersUntouched | epl/src/base/EventQueue.cxx:286-352 | add, mod and del change nothing recorded about another descriptor |
| FdRegistry.ApplyKeepsWellFormed | epl/src/base/EventQueue.cxx:286-352 | every call keeps node identities unique and the agreement with the kernel off the suspect set |
| FdRegistry.SuccessRestoresAgreement | epl/src/base/EventQueue.cxx:286-352 | a call that returns leaves registry and kernel agreeing on its descriptor, whatever was wrong before; a call rejected by its checks changes nothing |
| FdRegistry.ReturnsExactly | epl/src/base/EventQueue.cxx:286-352 | exactly which calls of add, mod and del return normally, and the callbacks each leaves, thrown or not |
| FdRegistry.FailureDriftsExactly | epl/src/base/EventQueue.cxx:286-352 | an accepted call that throws is not rolled back: add leaves a registry-only entry, del a kernel-only entry, mod the old mask; agreement survives iff it is a mod that kept the mask |
| FdRegistry.AgreementOverRuns | epl/src/base/EventQueue.cxx:286-352 | over any sequence of calls registry and kernel agree on each descriptor whose latest accepted call returned |
| Dispatch.GoneDoesNothing | epl/src/base/EventQueue.cxx:254-261 | leaving the dispatcher once the entry is gone equals going through the remaining event types |
| Dispatch.ScriptRunsToItsEnd | epl/src/base/EventQueue.cxx:238-246 | a callback performs its commands in order, all of them or up to and including the first whose exception leaves it |
| Dispatch.TypesInOrder | epl/src/base/EventQueue.cxx:65-74 | one event begins callbacks of its descriptor only, for reported types, each at most once, errors and hang-ups first |
| Dispatch.EventBeginsExactly | epl/src/base/EventQueue.cxx:211-263 | an event begins a callback iff its descriptor is registered, on reaching the event, with a callback for a reported type |
| EventQueue.EventQueue.constructor | epl/src/base/EventQueue.cxx:146-167 | a new queue is idle, has exit code 1 and has only the wake-up descriptor registered, with a do-nothing input callback |
| EventQueue.EventQueue.IsRunning | epl/src/base/EventQueue.cxx:281-284 | true iff the state was Running and no other thread's stop has taken effect by now |
| EventQueue.EventQueue.Add | epl/src/base/EventQueue.cxx:286-309 | the whole new registry and kernel state, the callbacks left, and exactly when it returns normally |
| EventQueue.EventQueue.Mod | epl/src/base/EventQueue.cxx:311-330 | the whole new registry and kernel state, the callbacks left, and exactly when it returns normally |
| EventQueue.EventQueue.Del | epl/src/base/EventQueue.cxx:332-352 | the whole new registry and kernel state, and exactly when it returns normally |
| EventQueue.EventQueue.DelSafe | epl/src/base/EventQueue.cxx:354-364 | the effect of del without its exception |
| EventQueue.EventQueue.Stop | epl/src/base/EventQueue.cxx:265-279 | no effect unless Running; otherwise Stopping and the given exit code, with one wake-up or an exception |
| EventQueue.EventQueue.CallFunction | epl/src/base/EventQueue.cxx:238-246 | the copied callback runs to its end or its first uncaught exception, which goes no further |
| EventQueue.EventQueue.HandleEpollFilledEvent | epl/src/base/EventQueue.cxx:211-263 | holding an iterator across event types has the outcome of looking the descriptor up afresh every time, for all callbacks; the iterator never dangles |
| EventQueue.EventQueue.HandleBatch | epl/src/base/EventQueue.cxx:202-206 | the events of a batch in order while the queue is running |
| EventQueue.EventQueue.Exec | epl/src/base/EventQueue.cxx:169-209 | the final state and result of exec for any observed waits |
| ExecSafety.StepProtocol | epl/src/base/EventQueue.cxx:169-209 | every step keeps the invariants of the race over state, exit code and wake-up |
| ExecSafety.StepRegistration | epl/src/base/EventQueue.cxx:211-263 | every step keeps registry, kernel, log and iterator consistent |
| ExecTheorems.NoLostStop | epl/src/base/EventQueue.cxx:169-209 | at epoll_wait with a stop under way, exec can sleep iff the winning stop has not written its wake-up |
| ExecTheorems.WakeUpNeverOverflows | epl/src/base/EventQueue.cxx:273-278 | the winning write always finds the counter at zero |
| ExecTheorems.FailedWriteLosesStop | epl/src/base/EventQueue.cxx:274-278 | a failed write can leave exec asleep in Stopping with no stop pending |
| ExecTheorems.LifecycleOverRuns | epl/include/suc/epl/base/EventQueue.hxx:92-100 | over every run the state only moves forward, exec enters at most once, at most one stop wins, the wake-up counter stays at most 1 |
| ExecTheorems.OneExecOneWinner | epl/src/base/EventQueue.cxx:171-175 | exec has an effect only before the first one entered; winning stops are unique; a stop before exec never wins |
| ExecTheorems.AbandonedExactly | epl/src/base/EventQueue.cxx:171-179 | the state is Running with no exec under way exactly after a failed drain or an escaped exception, until a stop wins |
| ExecTheorems.LateCallbackExactly | epl/src/base/EventQueue.cxx:202-252 | after the state has left Running a callback begins iff one was due at that step past its check; at most one, none if a callback was in progress |
| ExecTheorems.LateCallbackHappens | epl/src/base/EventQueue.cxx:202-241 | a run with a client descriptor in which that one callback begins |
| ExecTheorems.EveryEventIsReached | epl/src/base/EventQueue.cxx:202-206 | if the queue still runs when a batch is done with, every event of the batch was handled |
| ExecTheorems.NoStaleIterator | epl/src/base/EventQueue.cxx:215-256 | in every reachable state the iterator held is the current node and the function about to be called is the registered one |
| ExecTheorems.OnlyCurrentCallbacksBegin | epl/src/base/EventQueue.cxx:202-262 | every callback of a run was registered for its descriptor and type when it began |
| ExecTheorems.DelSilences | epl/include/suc/epl/base/EventQueue.hxx:78-85 | between a del and the next registration of a descriptor none of its callbacks begins |
| ExecTheorems.FetchedEventExactly | epl/src/base/EventQueue.cxx:202-262 | a fetched event begins a callback iff its descriptor is registered, when reached, with a callback for a reported type, deleted meanwhile or not; the callback is then the registered one |
| ExecTheorems.PendingEventSurvivesDel | epl/include/suc/epl/base/EventQueue.hxx:78-85 | a run in which an event fetched before a del begins the callback of the next registration, against the documentation |
| ExecTheorems.RegistryMatchesKernel | epl/src/base/EventQueue.cxx:286-352 | in every reachable state, descriptors closed while registered included, the kernel agrees off the suspect set and still watches the wake-up descriptor |
| ExecTheorems.ExitCodeIsTheWinners | epl/src/base/EventQueue.cxx:208-272 | exec returns only after a stop won, with its value iff stored by the final load, else 1; after a stop from a callback always with its value and in Stopping |
| ExecTheorems.ExitCodeCanBeMissed | epl/src/base/EventQueue.cxx:267-272 | a run in which exec returns 1 although a stop with any value has won |
| ExecLiveness.LoopStepDecreases | epl/src/base/EventQueue.cxx:183-262 | once not Running, every loop-thread step decreases a well-founded measure |
| ExecLiveness.OtherStepsKeepMeasure | epl/src/base/EventQueue.cxx:265-279 | steps of other threads do not undo that progress |
| ExecLiveness.ExecCanStillReturnOne | epl/src/base/EventQueue.cxx:208-272 | as long as another thread's stop has won but not stored and exec is under way, exec can return 1 |
| ExecLiveness.LoopCanMove | epl/src/base/EventQueue.cxx:169-209 | unless asleep in epoll_wait the loop thread has a next step until exec has ended; a wake-up written is one |
| ExecLiveness.CompletedStopEndsExec | epl/src/base/EventQueue.cxx:169-209 | in every fair infinite run a stop that won and returned while exec was under way makes exec end, and return that stop's value unless it throws |
| ExecLiveness.WinningStopEndsExec | epl/src/base/EventQueue.cxx:265-279 | in every fair infinite run a winning stop makes exec end unless its write fails |
| DispatchRefinement.SimulateEvent | epl/src/base/EventQueue.cxx:211-263 | what the dispatcher's specification does for an event is the run of the machine that the environment settles |
| DispatchRefinement.ExecIsARun | epl/src/base/EventQueue.cxx:169-209 | every call of the class's exec is a run of the machine, with the drain, waits, callback commands, answers and stops given, that ends in the same final state with the same result |
| DispatchRefinement.UseIsARun | epl/src/base/EventQueue.cxx:146-352 | construction, any client calls, exec and any client calls after it together are such a run from the start; every call is made and every wait taken up to the end of exec |
| DispatchRefinement.ExecReturnsTheCode | epl/src/base/EventQueue.cxx:208-272 | end to end, exec returns the value of the stop that found the queue running if a callback called it or it was stored by the final load, and else 1 |
| Observation.CodeReturned | epl/src/base/EventQueue.cxx:208-272 | the same for every run of the machine that an environment settles |
| DispatchRefinement.FreshQueueMatches | epl/src/base/EventQueue.cxx:146-167 | a newly constructed queue is the machine's initial state |
| DispatchRefinement.ExecOutcome | epl/src/base/EventQueue.cxx:169-209 | the class's exec returns only in Stopping or Stopped and keeps registry and kernel consistent |
| Handoff.StepInv | epl/include/suc/epl/common/ThreadSafeQueue.hxx:36-68 | every step of producers and consumer keeps mutual exclusion, conservation and order |
| Handoff.PermitsMatchElements | epl/include/suc/epl/common/ThreadSafeQueue.hxx:36-68 | deque size = counter + batch permits + unresolved push + lost permits, in every reachable state |
| Handoff.DequeueFindsElement | epl/include/suc/epl/common/ThreadSafeQueue.hxx:62-68 | the unchecked front finds an element, and it is the oldest undelivered one |
| Handoff.FifoExactlyOnce | epl/include/suc/epl/common/ThreadSafeQueue.hxx:36-68 | delivered, in flight and queued elements together are the pushed ones in lock order |
| Handoff.PermitsAreLostExactly | epl/include/suc/epl/common/ThreadSafeQueue.hxx:54-57 | a permit is lost exactly by a failed write or by a throw with permits left |
| Handoff.StrandedForEver | epl/include/suc/epl/common/ThreadSafeQueue.hxx:36-68 | that many elements stay undelivered in every continuation |
| Handoff.NoLostWakeUp | epl/src/common/EventFd.cxx:45-65 | between batches the descriptor is readable iff an element with a permit is queued |
| Handoff.AtRest | epl/include/suc/epl/common/ThreadSafeQueue.hxx:36-68 | at rest everything is delivered iff no write failed and no permit was dropped |
| Handoff.PlaceInLine | epl/include/suc/epl/common/ThreadSafeQueue.hxx:36-68 | in every continuation the element pushed p-th leaves the deque exactly when the permits consumed exceed p, and is handed over p-th |
| Handoff.FailedEnqueueKeepsItsPlace | epl/include/suc/epl/common/ThreadSafeQueue.hxx:36-41 | an element whose enqueue threw is queued last and keeps that place like any other |
| HandoffLiveness.EveryPermitDelivers | epl/include/suc/epl/common/ThreadSafeQueue.hxx:51-68 | in every fair infinite run, whatever failed before, if no handler throws any more then all elements but as many as lack a permit are handed over |
| HandoffLiveness.EveryElementIsHandedOver | epl/include/suc/epl/common/ThreadSafeQueue.hxx:36-68 | in every fair infinite run without failed writes and throws every pushed element is handed over, in its place |
| ThreadSafeQueue.EventFd.Add | epl/src/common/EventFd.cxx:58-65 | returns iff the write succeeds and there is room; the counter then grows by the value, and else is unchanged |
| ThreadSafeQueue.EventFd.Read | epl/src/common/EventFd.cxx:45-55 | the read takes the whole count, or 1 from a semaphore, and fails on zero |
| ThreadSafeQueue.ThreadSafeQueue.Enqueue | epl/include/suc/epl/common/ThreadSafeQueue.hxx:36-41 | the element is appended, and exactly if the call returns one permit is added |
| ThreadSafeQueue.ThreadSafeQueue.Dequeue | epl/include/suc/epl/common/ThreadSafeQueue.hxx:62-68 | removes and returns the front |
| ThreadSafeQueue.CounterExactly | epl/include/suc/epl/common/ThreadSafeQueue.hxx:36-41 | below its limit the counter grows by exactly the number of successful writes |
| ThreadSafeQueue.BatchLength | epl/include/suc/epl/common/ThreadSafeQueue.hxx:51-58 | a batch lasts for all its permits, or up to and including the first handler call that throws |
| ThreadSafeQueue.BatchInOrder | epl/include/suc/epl/common/ThreadSafeQueue.hxx:51-68 | elements handed over and then those queued are the earlier ones followed by the arrivals, and the counter is left with the arrivals' permits |
| ThreadSafeQueue.BatchKeepsPermits | epl/include/suc/epl/common/ThreadSafeQueue.hxx:51-68 | after a batch, thrown out of or not, every permit in the counter has its element |
| ThreadSafeQueue.ThreadSafeQueue.OnReadable | epl/include/suc/epl/common/ThreadSafeQueue.hxx:51-58 | hands over as many elements as there were permits, oldest first; throws only for a failed read, no permits or a throwing handler; what arrives meanwhile follows in order with its permits |
| HandoffRefinement.OnReadableIsARun | epl/include/suc/epl/common/ThreadSafeQueue.hxx:51-68 | from every reachable state with the consumer idle and the mutex free the call is a run of the hand-off machine, with the read, handler calls, throws and arrivals given, and with the same deliveries, deque, counter and outcome |
| Endian.Copy | cmn/include/suc/cmn/endian.hxx:70-85 | writes the bytes forward or reversed and nothing else |
| Endian.ByteSwapIsReversal | cmn/include/suc/cmn/endian.hxx:115-125 | byte swapping a value reverses its base-256 digits |
| Endian.ValueFormAgreesWithMemoryForm | cmn/include/suc/cmn/endian.hxx:97-142 | loading through memory equals converting by value, for every type, value and native endianness |
| Endian.StoreIsConvertedObject | cmn/include/suc/cmn/endian.hxx:97-125 | storing through memory equals the object bytes of the value converted by value |
| Endian.ConvertTwice | cmn/include/suc/cmn/endian.hxx:113-125 | the value form is its own inverse |
| Endian.StoreThenLoad | cmn/include/suc/cmn/endian.hxx:97-142 | the two memory forms are inverse to each other |
| Endian.StoreIsPositional | cmn/include/suc/cmn/endian.hxx:46-104 | stored bytes are the base-256 digits, most significant first for big endian, on any machine |
| Endian.StoreIsPortable | cmn/include/suc/cmn/endian.hxx:97-142 | what one machine stores any machine loads |
| ByteBuffer.CheckIsExactIff | cmn/include/suc/cmn/ByteBuffer.hxx:127-133 | the wrapping check means "position + n fits" for every n iff the position is within the buffer |
| ByteBuffer.ByteBuffer.constructor | cmn/include/suc/cmn/ByteBuffer.hxx:58-70 | starts at position 0 |
| ByteBuffer.ByteBuffer.MoveTo | cmn/include/suc/cmn/ByteBuffer.hxx:77-84 | sets the position up to and including the end, else throws unchanged |
| ByteBuffer.ByteBuffer.IncreasePos | cmn/include/suc/cmn/ByteBuffer.hxx:127-139 | advances and yields the old position iff the request fits |
| ByteBuffer.ByteBuffer.DataPtr | cmn/include/suc/cmn/ByteBuffer.hxx:94-100 | the old position, bytes unchanged |
| ByteBuffer.ByteBuffer.Read | cmn/include/suc/cmn/ByteBuffer.hxx:86-92 | the value whose base-256 digits, in the buffer's endianness, are the bytes at the position; bytes unchanged |
| ByteBuffer.ByteBuffer.Write | cmn/include/suc/cmn/ByteBuffer.hxx:110-116 | the bytes at the position become the base-256 digits of the value in the buffer's endianness; no other byte changes |
| ByteBuffer.CheckedCallIsExact | cmn/include/suc/cmn/ByteBuffer.hxx:77-139 | with the position inside, the wrapping check accepts exactly what fits; a rejected call changes nothing and an accepted one stays in the buffer |
| ByteBuffer.CheckedRunIsExact | cmn/include/suc/cmn/ByteBuffer.hxx:58-139 | from construction on, a run decided by the wrapping check equals the run in unbounded numbers, replies included, and never leaves the buffer |
| ByteBuffer.WriteFieldsFrame | cmn/include/suc/cmn/ByteBuffer.hxx:110-139 | writing a field list changes only its range and ends behind it |
| ByteBuffer.FieldsRoundTrip | cmn/include/suc/cmn/ByteBuffer.hxx:77-116 | any field list that fits is read back as written, across both native endiannesses, ending at the same position |
| Ownership.Fd.Make | cmn/src/Fd.cxx:27-48 | an owner of the descriptor, or an exception for a negative number |
| Ownership.Fd.MoveFrom | cmn/src/Fd.cxx:72-74 | the descriptor moves and the source owns none |
| Ownership.Fd.Assign | cmn/src/Fd.cxx:76-80 | the descriptors are swapped, self-assignment included |
| Ownership.Fd.Destroy | cmn/src/Fd.cxx:63-70 | closes an owned descriptor and nothing else |
| Ownership.Objects.Run | cmn/src/Fd.cxx:27-80 | a program run on the objects themselves has the effect on numbers and kernel that the statements below are about |
| Ownership.StepOwners | cmn/src/Fd.cxx:63-80 | every statement keeps owners and open descriptors in one-to-one correspondence |
| Ownership.OwnerFollows | cmn/src/Fd.cxx:72-80 | an open descriptor goes from its owner to the object moved to, or stays |
| Ownership.ExactlyOneOwner | cmn/src/Fd.cxx:27-80 | after any program each open descriptor has exactly one owner and no opening was closed twice |
| Ownership.AllClosedOnce | cmn/src/Fd.cxx:63-80 | once nothing owns a descriptor every opening has been closed exactly once |
| Lifetime.WatchedFd.Create | epl/src/base/Fd.cxx:24-27 | an object exists iff add returned; the queue is as add left it |
| Lifetime.WatchedFd.SetCallback | epl/src/base/Fd.cxx:34-37 | mod with the one callback replaced |
| Lifetime.SetCbSpec | epl/src/base/Fd.cxx:34-37 | the callback of the one event type is replaced and no other |
| Lifetime.WatchedFd.Deregister | epl/src/base/Fd.cxx:29-32 | del without its exception |
| Lifetime.NoCallbackOutlivesItsOwner | epl/src/base/Fd.cxx:24-37 | through any program, failures included, live objects are open and registered, and every stored callback was installed by the live owner of its descriptor |
| Lifetime.DestroyForgets | epl/src/base/Fd.cxx:29-32 | after destruction the descriptor is closed and known neither to the queue nor to the kernel, even if epoll_ctl failed |
| Lifetime.ConstructionSucceedsExactly | epl/src/base/Fd.cxx:24-27 | construction succeeds iff the number has no entry and the kernel agrees; else an entry without owner remains |
| Lifetime.OrphanUntilReleased | epl/src/base/Fd.cxx:24-27 | a number with such an entry cannot be constructed on until del is called for it |
| Lifetime.OrphanStaysExactly | epl/src/base/EventQueue.cxx:332-364 | a statement ends such an entry iff it is a del of its number |
| Lifetime.ReleasedIsUsable | epl/src/base/EventQueue.cxx:332-364 | after that del, even one that throws, construction succeeds iff the kernel agrees |
| Lifetime.LifetimeTiesToRegistration | epl/src/base/Fd.cxx:24-37 | without kernel failures every registered descriptor has a live owner and the kernel watches exactly its events |
| OwnedCallbacks.CallbackOfLiveOwner | epl/src/base/Fd.cxx:24-37 | with the dispatcher running and callbacks using the objects, every callback begun was installed by the live owner of its descriptor |

## Left out

- EventQueue.EventQueue.Exec: covers finitely many waits; a run that goes on for ever is the machine's, in ExecLiveness.
- EventQueue.EventQueue.constructor: system call failures while constructing are not modelled; there is then no queue.
- DispatchRefinement.ExecIsARun: one direction; the machine has more interleavings than the oracle of the class, whose other threads act only where the loop thread looks.
- EventQueue.EventQueue.CallFunction: an exception that is not a `std::exception` is not among the commands; it is a step of the machine.
- HandoffRefinement.OnReadableIsARun: not for a mutex held at the read, when an enqueue can end between the read and the first handler call.
- ThreadSafeQueue.ThreadSafeQueue.OnReadable: other threads' enqueues take effect between handler calls; the finer interleaving is in Handoff.
- Masks are sets of event types; bit positions and the edge-triggered, one-shot, wake-up and exclusive flags, which no caller sets, are not modelled.
- C++ object lifetime of what callbacks capture, and memory ordering weaker than sequential consistency.
- The process-wide singleton, logging, error texts and nested exceptions.
- `onElement` with an empty function, which clears the callback: a plain mod.
- Elements whose move constructor throws.
- `ByteBuffer::setData`, which cannot be instantiated, and reading `bool`.
- `net/`, `gpio/`, signal and timer descriptors: thin code over system calls.
