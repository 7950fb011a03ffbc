# RuBLE: a verified model

RuBLE is a Ruby extension over the SimpleBLE Bluetooth library. Its C++ core moves notifications from
Bluetooth threads to a Ruby thread, filters and caches characteristic values, keeps one Ruby object
per Bluetooth entity, and marks those objects during garbage collection. This project models that core
in Dafny and proves what it promises, and, where a promise fails, exactly when it holds.

## How it is built

- **The callback queue.** `RubyQueue` is an interleaving transition system: any number of threads, one
  program counter each, one step per atomic-flag, mutex or semaphore operation. The flags are
  sequentially consistent in the source, so interleaving is exact; `try_lock` may fail spuriously; the
  debug switch is a field, so both builds are covered. `RubyQueueInvariant` keeps one inductive
  invariant, `RubyQueueTheorems` draws the conclusions for all runs, and `RubyQueueRuns` exhibits
  particular ones. `RubyQueueObject` is the queue as an object with fields updated in place: one method
  per operation, proved to be exactly that step of the system, the source's methods made of them, an
  arbitrary schedule of the other threads at every point between, and a proof that each call is a run of
  the system. `RubyQueueProgress` shows that every item can begin, `RubyQueueShutdown` that the consumer can
  always reach its end, `RubyQueueAnswers` what the queries answer undisturbed, and `RubyQueueLate` which
  items pushed after stop can start. `QueueShares` looks at one client of the shared queue, and `Async` is
  the waiting loop.
- **Values.** `Characteristic` has the tracker and the cached read as an object, and whole-run lemmas
  about what the filter drops. `QueueCoherence` composes it with the queue, in which the closures of all
  other objects wait as well, and gives the exact condition under which a cached read is right.
- **Registries.** `Registry` interns, `RegistryFactory` and `Hashing` separate owners, `Lookup` is the
  cached `operator[]` of services and peripherals, `OwnedLookup` says whose object a lookup answers, and
  `Marking` is the garbage-collection traversal.
- **The in-Ruby marker.** `RubyContext` has contexts and guards as objects and the accounting over whole
  runs; `GuardObjects` shows that the objects do what the accounting says.
- **Text and numbers.** `NamedBitSet`, `Strings`, `Hexadecimal`, `ByteArray`, `ByteStrings`, `Bits`, `Arity`.

`dafny verify dfyconfig.toml` checks everything.

## What the code does differently from what it says

- The queue's header promises FIFO; the consumer takes the back while producers append to the back
  (`ext/ruble/management/RubyQueue.cpp:75-76`, `:101`). `FifoExactly` gives the exact condition,
  `FifoFails` a run that breaks the order, `StaleOnTheQueue` what this does to a cached read, and
  `CachedReadExactly` when the read is right all the same.
- The message "Refusing to push" is true of debug builds only. In release builds a push after stop queues
  an item all the same; it can still run exactly when the consumer was past its second stop test and had
  not locked the deque (`LateItemCanStartExactly`, with a run in `LatePushRuns`), and otherwise never does.
- The clear of `_running` by observers repairs nothing: the flag is already clear whenever the shared
  lock is granted (`ObserverClearChangesNothing`).
- A move of a guard never gives the emptied guard's count back (`GuardAccounting`); the idiom at module
  initialisation leaves a count of two (`AssigningTemporaryLeaks`).
- A registry is found by the hash of an address or UUID without its parents, so services with one UUID
  on different peripherals share a registry (`SameNameShares`), and the later one answers the other's
  characteristics (`SameNameAnswersOther`).
- The comment in `Peripheral::operator[]` says it asks the backend only when needed; the guard is true
  for every non-null registry pointer, so it always asks (`Lookup.PeripheralObject.Index`).
- The arity check is made in 8 bits and goes wrong for some very long parameter lists
  (`AcceptsTooFew`, `RefusesAll`, and exactly when in `CheckIsRightExactly`).

## Model

| member | source | states |
|---|---|---|
| `RubyQueueInvariant.StepKeepsInv` | ext/ruble/management/RubyQueue.cpp:20-144 | One inductive invariant survives every step of every thread: one consumer, ownership of both mutexes, `_running` set exactly while a thread is in the loop body, the token account, a single stop release, the order of items, and that "stopped" is answered only in quiet states. |
| `RubyQueueInvariant.RunKeepsInv` | ext/ruble/management/RubyQueue.cpp:20-144 | The invariant holds along every schedule, for any number of threads. |
| `RubyQueueInvariant.ReachableInv` | ext/ruble/management/RubyQueue.cpp:20-144 | The invariant holds in every state reachable from a new queue object, in either kind of build. |
| `RubyQueueTheorems.Quiescence` | ext/ruble/management/RubyQueue.cpp:116-144 | Once `stopped` has answered true, or `stop_on_exit` has returned without killing, no callback is executing or on its way and none ever starts, in every continuation of every run. |
| `RubyQueueTheorems.QuietForever` | ext/ruble/management/RubyQueue.cpp:59-87 | A quiet state stays quiet on every schedule, and the history of begun callbacks does not grow. |
| `RubyQueueTheorems.RunningIsAccurate` | ext/ruble/management/RubyQueue.cpp:114-127 | Claim of the comment above `running`: the flag test says false exactly when no thread is between setting and clearing `_running`, and a try that does not fail spuriously gets the shared lock exactly when no thread holds the run mutex in the loop. |
| `RubyQueueAnswers.StoppedAlone` | ext/ruble/management/RubyQueue.cpp:130-132 | From every reachable state an undisturbed `stopped` answers true exactly when stop has been requested and no thread is in the loop body, and changes nothing. |
| `RubyQueueAnswers.RunningAlone` | ext/ruble/management/RubyQueue.cpp:116-127 | From every reachable state an undisturbed `running` answers exactly whether a thread is in the loop body, and changes nothing. |
| `RubyQueueAnswers.ExitAlone` | ext/ruble/management/RubyQueue.cpp:134-140 | From every reachable state an undisturbed `stop_on_exit` leaves the stop requested and returns at its first check exactly when no thread is in the loop body. |
| `RubyQueueAnswers.StoppedCanBeSeen` | ext/ruble/management/RubyQueue.cpp:59-132 | From every reachable state in which stop has been requested, some schedule takes the consumer to its end and gives any resting thread the answer that the queue is stopped. |
| `RubyQueueTheorems.ObserverClearChangesNothing` | ext/ruble/management/RubyQueue.cpp:125 | The clear by observers, in every reachable state where it happens, finds the flag already clear. |
| `RubyQueueTheorems.TokenInvariant` | ext/ruble/management/RubyQueue.cpp:68-77 | Items plus the stop token always equal the semaphore count, plus pushes appended and not released, plus tokens taken and not yet turned into a pop, plus the token given up on leaving; so the count exceeds the queue length by at most the stop token. |
| `RubyQueueTheorems.BackIsNeverEmpty` | ext/ruble/management/RubyQueue.cpp:74-76 | The deque is never empty at `back` and `pop_back`: the debug assertion cannot fire. |
| `RubyQueueTheorems.ReleaseMeetsBound` | ext/ruble/types/stl.hpp:13-14 | A release in `push` or `stop` stays within the bound 65535 whenever at most 65534 items are waiting. |
| `RubyQueueTheorems.AtMostOneMoreStart` | ext/ruble/management/RubyQueue.cpp:67-70 | After `_stopping` is set at most one more callback starts, on any run, however many threads push or stop. |
| `RubyQueueTheorems.StartsAfterStop` | ext/ruble/management/RubyQueue.cpp:67-84 | The sharper count behind it: begun callbacks plus the one on its way never increase after the flag is set. |
| `RubyQueueTheorems.AcquireNeverBlocks` | ext/ruble/management/RubyQueue.cpp:68-70 | After the release of `stop` the consumer is never blocked at `acquire`. |
| `RubyQueueTheorems.StopReleasePending` | ext/ruble/management/RubyQueue.cpp:106-110 | While the stop flag is set and the token is not out, exactly that release is enabled in some thread: the token cannot be forgotten. |
| `RubyQueueTheorems.ConsumerNotStuck` | ext/ruble/management/RubyQueue.cpp:59-87 | After the release the consumer can step, or the holder of the mutex it waits for is a pusher or a set of observers that can step. |
| `RubyQueueTheorems.ConsumerExitsSoon` | ext/ruble/management/RubyQueue.cpp:67-86 | Once the stop flag is set the consumer takes at most nine more steps, on any run. |
| `RubyQueueShutdown.ConsumerCanExit` | ext/ruble/management/RubyQueue.cpp:59-87 | From every reachable state in which stop has been requested, before or after the release, some schedule takes the consumer out of `loop`: no state is a dead end for the shutdown. |
| `RubyQueueShutdown.GetsNearer` | ext/ruble/management/RubyQueue.cpp:59-112 | While the consumer has not exited, something that brings the exit nearer is enabled: the stop release, its own step, or the departure of the pusher or observers it waits for. |
| `RubyQueueShutdown.ExitedAfterStepsLeft` | ext/ruble/management/RubyQueue.cpp:67-87 | After as many own steps as its program point has left, the consumer has exited, whatever ran between them. |
| `RubyQueueProgress.NoLostWakeup` | ext/ruble/management/RubyQueue.cpp:69-77 | No wakeup is lost: a consumer that waits for a token while an item waits is about to get one, from a pusher that has appended, has not released, and can step. |
| `RubyQueueProgress.EveryItemCanBegin` | ext/ruble/management/RubyQueue.cpp:59-87 | From every reachable state without a stop and with a consumer in its loop, some schedule begins every pushed item, those pushed meanwhile included, each exactly once. |
| `RubyQueueProgress.GoesOn` | ext/ruble/management/RubyQueue.cpp:59-103 | Short of having caught up, the consumer can step, or the observer, the pusher in the deque or the token's giver that it waits for can move out of its way. |
| `RubyQueueTheorems.ConsumerStepsBounded` | ext/ruble/management/RubyQueue.cpp:67-86 | From each program point the number of further consumer steps is bounded by its distance to the exit. |
| `RubyQueueTheorems.ItemsPartition` | ext/ruble/management/RubyQueue.cpp:72-84 | Pushed items are at all times the disjoint union of begun, in hand (at most one) and still queued. |
| `RubyQueueTheorems.StartedAtMostOnce` | ext/ruble/management/RubyQueue.cpp:79-83 | No push starts two callbacks, and only pushed items start. |
| `RubyQueueTheorems.PopTakesNewest` | ext/ruble/management/RubyQueue.cpp:75-76 | Each pop removes the newest of all waiting items. |
| `RubyQueueTheorems.FifoExactly` | ext/ruble/management/RubyQueue.hpp:14-16 | The documented FIFO order, with its exact condition: pops follow the push order if and only if every pop saw a single waiting item, and the begun callbacks if and only if every pop of theirs did. |
| `RubyQueueRuns.FifoFails` | ext/ruble/management/RubyQueue.hpp:14-16 | The documented order is not unconditional: a reachable state in which the second push has started first. |
| `RubyQueueLate.LateItemCanStartExactly` | ext/ruble/management/RubyQueue.cpp:68-76 | Stop has been requested and some thread may still append, in a release build any caller: an item pushed from now on can start, on some run, if and only if the consumer is past its second stop test and has not yet locked the deque. |
| `RubyQueueLate.LateItemsNeverStart` | ext/ruble/management/RubyQueue.cpp:67-76 | With stop requested and no consumer at that point, no item pushed from now on ever starts, on any run and in either build. |
| `RubyQueueLate.LateItemStarts` | ext/ruble/management/RubyQueue.cpp:72-84 | With the consumer at that point, what a thread may still append is run next on some schedule, whoever holds the deque. |
| `RubyQueueLate.LatePushRuns` | ext/ruble/management/RubyQueue.cpp:89-104 | Such a run: in a release build, stop has returned, an item is pushed after it, and the item starts. |
| `RubyQueueLate.PushAfterStop` | ext/ruble/management/RubyQueue.cpp:89-104 | After stop, with no consumer at that point and the mutex free, a whole push is refused in a debug build and, in a release build, leaves an item and a token behind whose callback no later run starts. |
| `RubyQueueRuns.DebugAppendsBounded` | ext/ruble/management/RubyQueue.cpp:90-97 | In a debug build, once stop is requested only pushes already past their test still append. |
| `RubyQueueRuns.PushLocally` | ext/ruble/management/RubyQueue.cpp:89-104 | An undisturbed push appends its item and adds one token in five steps. |
| `RubyQueueRuns.ConsumeLocally` | ext/ruble/management/RubyQueue.cpp:67-84 | An undisturbed loop iteration runs the newest item and returns to the stop test in nine steps. |
| `RubyQueueRuns.PushReaches` | ext/ruble/management/RubyQueue.cpp:89-104 | From every reachable state with the mutex free and no stop, the state after a whole push is reachable: pushes are possible runs. |
| `RubyQueueRuns.StartReaches` | ext/ruble/management/RubyQueue.cpp:20-31 | From every reachable state not yet started, the state with one new consumer is reachable. |
| `RubyQueueObject.QueueObject.constructor` | ext/ruble/management/RubyQueue.hpp:26-40 | A new object is in an initial state of the system. |
| `RubyQueueObject.QueueObject.Push` | ext/ruble/management/RubyQueue.cpp:89-104 | Between its operations the other threads run any schedule. It is refused in a debug build when stop came before it and only after a stop; otherwise its closure is in the push history and its last step is one release; it is left unfinished only while another thread holds the mutex. |
| `RubyQueueObject.QueueObject.Stop` | ext/ruble/management/RubyQueue.cpp:106-112 | From any state and under any interference it returns with the stop flag set; if this call set it, its last step was the stop release; if the flag was set before, it releases nothing. |
| `RubyQueueObject.QueueObject.StopBody` | ext/ruble/management/RubyQueue.cpp:106-112 | The same as part of `stop_on_exit`: it continues at the point its caller is at. |
| `RubyQueueObject.QueueObject.Running` | ext/ruble/management/RubyQueue.cpp:116-127 | The answer was right at some instant of the call: true exactly when a thread was in the loop body then, with any interference; and true without a spurious failure only if a consumer held the run mutex at some instant. |
| `RubyQueueObject.QueueObject.RunningBody` | ext/ruble/management/RubyQueue.cpp:116-127 | The same for every caller of `running`. |
| `RubyQueueObject.QueueObject.RunningTry` | ext/ruble/management/RubyQueue.cpp:121-127 | From the try on: an answer of false means that no thread was in the loop body at the try. |
| `RubyQueueObject.QueueObject.Stopped` | ext/ruble/management/RubyQueue.cpp:130-132 | True only in a quiet state; false only if, at some instant of the call, stop had not been requested or a thread was in the loop body; under any interference. |
| `RubyQueueObject.QueueObject.StoppedFrom` | ext/ruble/management/RubyQueue.cpp:130-132 | The same from the first test on. |
| `RubyQueueObject.QueueObject.ExitCheck` | ext/ruble/management/RubyQueue.cpp:138 | The check of `stop_on_exit` before it waits: its answer was right at some instant of it, and not active means it has returned. |
| `RubyQueueObject.QueueObject.ExitPoll` | ext/ruble/management/RubyQueue.cpp:140-143 | One poll of the wait: its value was right at some instant of this poll; a poll that finds the queue stopped returns, time up or not, and one that does not kills exactly when time is up. |
| `RubyQueueObject.QueueObject.ExitWait` | ext/ruble/management/RubyQueue.cpp:140-143 | The wait ends at its first poll that is done, and kills exactly when `wait_until` on the same polls gives false. |
| `RubyQueueObject.QueueObject.StopOnExit` | ext/ruble/management/RubyQueue.cpp:134-144 | The first check and every poll were right at some instant of their own; it is finished exactly when the first check said not active or its last poll is done, and no earlier poll was; it kills exactly when `wait_until` on its polls gives false, and returns without killing only in a quiet state. |
| `RubyQueueObject.QueueObject.Start` | ext/ruble/management/RubyQueue.cpp:19-32 | Creates a new consumer thread only if the flag was clear, and leaves the flag set. |
| `RubyQueueObject.QueueObject.TakeItem` | ext/ruble/management/RubyQueue.cpp:72-77 | Under any interference the back exists when it is read and when it is popped; it stops only when another thread holds the mutex. |
| `RubyQueueObject.QueueObject.Execute` | ext/ruble/management/RubyQueue.cpp:72-83 | Takes the newest item and runs it to its end, or stops only when another thread holds the mutex. |
| `RubyQueueObject.QueueObject.PushLocked` | ext/ruble/management/RubyQueue.cpp:101-103 | From its critical section on a push appends its closure next in the push order and ends in one release. |
| `RubyQueueObject.QueueObject.Round` | ext/ruble/management/RubyQueue.cpp:68-84 | Ends with a callback executed, or at the clear of `_running` after a stop, or blocked. |
| `RubyQueueObject.QueueObject.Loop` | ext/ruble/management/RubyQueue.cpp:59-87 | Ends only after a stop; short of that it is blocked or every one of its rounds has executed a callback. |
| `RubyQueueObject.QueueObject.Others` | ext/ruble/management/RubyQueue.cpp:20-144 | Any schedule of the other threads leaves this thread where it is and only extends the histories of pushes and starts and the set flags. |
| `Async.WaitUntil` | ext/ruble/utils/async.hpp:18-45 | Stops at the first check that is done and returns the predicate's value of that check, not whether time was up. |
| `Characteristic.CharacteristicObject.constructor` | ext/ruble/concerns/CharacteristicValueTracker.hpp:12-13 | A new characteristic has no setting, no value and no callback. |
| `Characteristic.CharacteristicObject.ValueTracking` | ext/ruble/concerns/CharacteristicValueTracker.hpp:29-31 | Tracking defaults to the notify capability until it is set. |
| `Characteristic.CharacteristicObject.RecordNewValue` | ext/ruble/concerns/CharacteristicValueTracker.cpp:4-13 | The field exchange and its three answers are the filter of which the run properties are proved. |
| `Characteristic.CharacteristicObject.SetValueTracking` | ext/ruble/concerns/CharacteristicValueTracker.hpp:20-27 | Fails exactly for switching on without notify, and then changes nothing; else tracking is what was asked for, and switching off forgets the value. |
| `Characteristic.CharacteristicObject.Read` | ext/ruble/bindings/Characteristic.cpp:58-65 | The device is asked exactly when the read is forced, tracking is off or nothing is stored; the answer is the device's or the stored value, and while tracking is on it is the recorded value afterwards. |
| `Characteristic.CharacteristicObject.FireOnNotify` | ext/ruble/bindings/Characteristic.cpp:90-94 | The callback is called exactly when there is one and the notification is news. |
| `Characteristic.CharacteristicObject.SetOnNotify` | ext/ruble/bindings/Characteristic.cpp:80-83 | Accepts nil, plain procs and lambdas that the arity check passes for two arguments; nil stops the calls; anything else throws and leaves the callback as it was. |
| `ByteStrings.EqualToIsEquality` | ext/ruble/containers/ByteArray.hpp:90-98 | Equality through the three-way comparison is equality of the bytes, so "differs" in the filter means what it says. |
| `ByteStrings.CompareAntisymmetric` | ext/ruble/containers/ByteArray.hpp:90-92 | Swapping the sides of the comparison negates it. |
| `ByteStrings.CompareTransitive` | ext/ruble/containers/ByteArray.hpp:90-92 | The comparison is transitive. |
| `ByteStrings.CompareByFirstDifference` | ext/ruble/containers/ByteArray.hpp:90-92 | The first bytes that differ decide the comparison, as unsigned numbers. |
| `ByteStrings.ComparePrefix` | ext/ruble/containers/ByteArray.hpp:90-92 | A proper prefix is less. |
| `Characteristic.StoredValueIsTracked` | ext/ruble/concerns/CharacteristicValueTracker.hpp:20-31 | In every reachable state a stored value implies tracking, and tracking implies notify. |
| `Characteristic.SuppressionLosesNothing` | ext/ruble/concerns/CharacteristicValueTracker.cpp:4-13 | On every run of notifications, reads and switches, replaying only what was delivered or read gives the same value as replaying everything, and it is the recorded value. |
| `Characteristic.ReplayIsCurrent` | ext/ruble/concerns/CharacteristicValueTracker.cpp:4-13 | The same from any sound state, for the suppressed and the full replay. |
| `Characteristic.DeliveredExactlyWhenNew` | ext/ruble/concerns/CharacteristicValueTracker.cpp:9-12 | While tracking is on, a notification is delivered exactly when it differs from what replaying everything gives, nothing counting as empty. |
| `Characteristic.UntrackedIsDelivered` | ext/ruble/concerns/CharacteristicValueTracker.cpp:5 | Without tracking every notification is delivered and none is kept, after any run. |
| `Characteristic.LastSeenStaysRight` | ext/ruble/concerns/CharacteristicValueTracker.cpp:9-12 | For a client that does not start over when tracking is switched off, the exact case in which its last seen value goes wrong: an empty first notification. |
| `QueueShares.ShareOrderExactly` | ext/ruble/management/RubyQueue.cpp:72-77 | For any one client of the shared queue, whatever the others push: its items keep their push order if and only if no pop took one of them while another one waited. |
| `QueueShares.SingleItemsInOrder` | ext/ruble/management/RubyQueue.cpp:75-76 | Single waiting items keep every client in order. |
| `QueueShares.LastBegunIsLastPushed` | ext/ruble/management/RubyQueue.cpp:72-84 | In order and with everything begun, a client's last begun item is its last pushed one. |
| `QueueCoherence.CachedReadExactly` | ext/ruble/bindings/Characteristic.cpp:58-65 | On every interleaving of all threads and clients, with other objects' closures among the notifications: an unforced read is right if and only if the last recording, a callback's or a device read's, carried what the last pushed notification carries. |
| `QueueCoherence.CachedReadForAllValues` | ext/ruble/bindings/Characteristic.cpp:58-65 | Whatever the values, a recording from the newest notification, or a device read after it, suffices; when no value is repeated nothing less does. |
| `QueueCoherence.CachedReadExactlyInQueue` | ext/ruble/bindings/Characteristic.cpp:20-25 | Without reads and switches: right exactly when no notification has begun or the last one to begin carries what the last one pushed carries. |
| `QueueCoherence.ForcedReadIsRight` | ext/ruble/bindings/Characteristic.cpp:58-65 | On every run a forced read answers what the device holds, the last pushed notification's value; while tracking is on the value is then stored and a cached read just after is right. |
| `QueueCoherence.StaleOnTheQueue` | ext/ruble/bindings/Characteristic.cpp:20-25 | For every two different values, a run of the real queue in which both notifications have begun and nothing waits, after which the cache holds the older value. |
| `QueueCoherence.QueuedReadIsCoherent` | ext/ruble/bindings/Characteristic.cpp:20-25 | On every interleaving, with any closures of other objects: if no pop took a notification of this characteristic while another one of its own waited, and all of its own have begun, an unforced read answers what the device would. |
| `QueueCoherence.KeepsTied` | ext/ruble/bindings/Characteristic.cpp:20-25 | The invariant behind it along every run: the device's value is the last pushed notification's, and the stored value is what its recorded origin carries. |
| `Registry.RegistryObject.constructor` | ext/ruble/management/Registry.hpp:53-64 | A new registry is empty and has its owner. |
| `Registry.RegistryObject.Fetch` | ext/ruble/management/Registry.hpp:93-113 | Answers the object of the value's key; a new one wraps this value and belongs to the registry's owner; during collection it creates nothing and fails exactly on a missing key. |
| `Registry.RegistryObject.Clear` | ext/ruble/management/Registry.hpp:115-118 | Forgets all entries. |
| `Registry.RegistryObject.MapToObjects` | ext/ruble/management/Registry.hpp:120-126 | Keeps length and order, answers each position the registry's object of its key; during collection it creates nothing and fails exactly if some key is missing. |
| `Registry.InternedAllFacts` | ext/ruble/management/Registry.hpp:93-126 | Mapping a list keeps every entry, adds exactly the list's keys, each under its own key, and creates exactly one object per distinct new key. |
| `Registry.MappedObjectsFacts` | ext/ruble/management/Registry.hpp:120-126 | Two positions hold the same object exactly when their keys are equal, and known keys keep their objects. |
| `Registry.NewWrapsFirst` | ext/ruble/management/Registry.hpp:107-112 | A new object wraps the first value of the list with its key. |
| `Registry.GrowsBetweenClears` | ext/ruble/management/Registry.hpp:93-126 | Between clears the registry only grows and never replaces an entry, on every run. |
| `Registry.StaysWellFormed` | ext/ruble/management/Registry.hpp:93-126 | Every key equals its proxy's own key, every proxy belongs to the registry's owner, and distinct keys have distinct objects, on every run. |
| `Registry.ClearForgets` | ext/ruble/management/Registry.hpp:115-118 | An object handed out before a clear is never handed out after it. |
| `RegistryFactory.FactoryObject.constructor` | ext/ruble/management/RegistryFactory.hpp:65-66 | A new factory has no registries. |
| `RegistryFactory.FactoryObject.RegistryFor` | ext/ruble/management/RegistryFactory.hpp:75-95 | Keeps every registry object untouched and answers the one of the owner's index, made empty for this owner if there was none. |
| `RegistryFactory.FirstOwner` | ext/ruble/management/RegistryFactory.hpp:75-95 | After any requests, an index is present exactly when some owner had it, with the first such owner. |
| `RegistryFactory.OwnerIsFirstSeen` | ext/ruble/management/RegistryFactory.hpp:82-94 | A registry's owner is the first owner seen with its index. |
| `RegistryFactory.RegistryIsStable` | ext/ruble/management/RegistryFactory.hpp:82-83 | Repeated requests give the same registry, whatever was requested between. |
| `RegistryFactory.SharingIsCollision` | ext/ruble/management/RegistryFactory.hpp:76-83 | Two requested owners share a registry exactly when their indexes are equal. |
| `RegistryFactory.IsolationIsInjectivity` | ext/ruble/management/RegistryFactory.hpp:75-95 | Every owner has a registry of its own exactly when the indexes are pairwise distinct. |
| `RegistryFactory.SharingExactly` | ext/ruble/utils/hash.cpp:6-17 | For owners of one class: they share a registry exactly when the string hashes of their address or UUID agree modulo 2^62. |
| `RegistryFactory.NestedIndexCollides` | ext/ruble/utils/hash.cpp:39-63 | The index collides exactly under that condition. |
| `RegistryFactory.SameNameShares` | ext/ruble/utils/hash.cpp:39-50 | Services with one UUID on different peripherals get one characteristic registry, the first one's. |
| `OwnedLookup.AnswerIsOwnExactly` | ext/ruble/management/RegistryFactory.hpp:75-95 | After any creations, lookups, refreshes, list mappings and clears by any owners, a lookup that succeeds answers an object of the asking owner if and only if no other owner with its index used the registries before. |
| `OwnedLookup.AnswerBelongs` | ext/ruble/management/Registry.hpp:107-112 | Every answered object belongs to the owner of the registry that the factory hands out. |
| `OwnedLookup.CameFirstExactly` | ext/ruble/utils/hash.cpp:39-63 | The condition in terms of the names: no earlier owner's name hash agrees modulo 2^62. |
| `OwnedLookup.SameNameAnswersOther` | ext/ruble/bindings/Service.cpp:11-16 | A service whose UUID another peripheral's service had before answers only that one's characteristics, whatever both do, and so reads from the other device. |
| `RegistryFactory.UnownedIsSingle` | ext/ruble/management/RegistryFactory.hpp:68-72 | Without an owner there is one registry. |
| `Hashing.NestedCollides` | ext/ruble/utils/hash.cpp:6-17 | Two nested xor-and-shift steps lose exactly the top two bits. |
| `Hashing.CombineLoses` | ext/ruble/utils/hash.cpp:13-17 | One step loses exactly the top bit of what it combines, on any prefix of low bits. |
| `Hashing.CombineBits` | ext/ruble/utils/hash.cpp:13-17 | Bit for bit, the type's hash is flipped where the next lower bit of the combined hash is set. |
| `Hashing.CombineSeparatesTypes` | ext/ruble/utils/hash.cpp:13-17 | For one combined hash, steps of different type hashes differ. |
| `Hashing.Low62IsModulo` | ext/ruble/utils/hash.cpp:39-63 | Agreement on the low 62 bits is agreement modulo 2^62. |
| `Lookup.ServiceObject.constructor` | ext/ruble/bindings/Service.cpp:11-16 | A new service takes the registry that the factory has for its index, and leaves the other registries. |
| `Lookup.ServiceObject.Characteristics` | ext/ruble/bindings/Service.cpp:28-40 | Outside collection the registry interns the backend's list; during collection nothing is written. |
| `Lookup.ServiceObject.Index` | ext/ruble/bindings/Service.cpp:42-46 | The lookup that refreshes only on a miss answers the same object, or the same failure, as refreshing first and then looking up. |
| `Lookup.PeripheralObject.constructor` | ext/ruble/bindings/Peripheral.cpp:11-20 | A new peripheral takes the registry that the factory has for its index, and leaves the other registries. |
| `Lookup.PeripheralObject.Services` | ext/ruble/bindings/Peripheral.cpp:83-95 | Outside collection the registry interns the backend's list; during collection nothing is written. |
| `Lookup.PeripheralObject.Index` | ext/ruble/bindings/Peripheral.cpp:97-105 | Meets the same specification, with an empty pointer for failure, and always refreshes. |
| `Lookup.SlowLookupFacts` | ext/ruble/bindings/Service.cpp:42-46 | The lookup succeeds exactly when the UUID is cached or, outside collection, offered by the backend, and fails as out of range; cached objects are kept; the answer has the key and belongs to the registry's owner. |
| `Lookup.LookupIsStable` | ext/ruble/bindings/Service.cpp:42-46 | Once found, a UUID keeps its object whatever the backend offers later. |
| `Marking.MarkAdapter` | ext/ruble/bindings/Adapter.cpp:158-167 | Terminates, writes none of the registry objects of the three levels, marks the adapter's registry and its live callbacks, and marks exactly what belongs to its tree, for trees of any size with shared subtrees. |
| `Marking.MarkPeripheral` | ext/ruble/bindings/Peripheral.cpp:177-182 | Marks exactly the peripheral, its callbacks that are not nil, its registry and everything of its registered services, and writes no registry. |
| `Marking.MarkService` | ext/ruble/bindings/Service.cpp:98-102 | Marks exactly the service and everything of its registered characteristics, without asking the backend. |
| `Marking.MarkCharacteristic` | ext/ruble/bindings/Characteristic.cpp:120-128 | Marks exactly the characteristic, its stored value and its callbacks that are not nil. |
| `Marking.MarkCallback` | ext/ruble/containers/Callback.hpp:37-43 | Marks a callback exactly when it is neither nil nor false. |
| `Marking.MarkCallbacks` | ext/ruble/bindings/Adapter.cpp:163-166 | Marks exactly the callbacks of the list that are neither nil nor false. |
| `Marking.MarkPeripherals` | ext/ruble/management/Registry.hpp:41-47 | Marks exactly what belongs to the registered peripherals, and writes no registry. |
| `Marking.AdapterOwnIsDue` | ext/ruble/bindings/Adapter.cpp:158-167 | The adapter's registry and each of its callbacks that is neither nil nor false are to be marked, whatever is below. |
| `Marking.PeripheralIsDue` | ext/ruble/bindings/Peripheral.cpp:177-182 | Every registered peripheral is to be marked, with its registry and its callbacks that are neither nil nor false. |
| `Marking.ServiceIsDue` | ext/ruble/bindings/Service.cpp:98-102 | Every registered service of a registered peripheral is to be marked. |
| `Marking.EverythingBelowIsDue` | ext/ruble/management/Registry.hpp:41-48 | Along every path of keys from the adapter, the peripheral, service and characteristic objects, stored values and callbacks that are neither nil nor false are all to be marked. |
| `Marking.NothingElseIsDue` | ext/ruble/management/Registry.hpp:41-48 | What is to be marked at a level is the object's own or to be marked one level below. |
| `RubyContext.InRubyGuard.constructor` | ext/ruble/utils/ruby_context.hpp:46-48 | The context is held once more. |
| `RubyContext.InRubyGuard.Destroy` | ext/ruble/utils/ruby_context.hpp:49-51 | The held context is let go once; an empty guard changes nothing. |
| `RubyContext.InRubyGuard.Move` | ext/ruble/utils/ruby_context.hpp:53-55 | The new guard holds what the emptied one held, and the context's count has grown. |
| `RubyContext.InRubyGuard.MoveAssign` | ext/ruble/utils/ruby_context.hpp:57-63 | The new target gains one and the former target loses one, which cancel on one context; the source is emptied without giving its count back. Covers self-moves. |
| `GuardObjects.CreateGuard` | ext/ruble/utils/ruby_context.hpp:46-48 | On real objects the creation does what the accounting says. |
| `GuardObjects.MoveConstruct` | ext/ruble/utils/ruby_context.hpp:53-55 | On real objects the move construction does what the accounting says. |
| `GuardObjects.MoveAssignGuard` | ext/ruble/utils/ruby_context.hpp:57-63 | On real objects, with aliased contexts and self-moves, the move assignment does what the accounting says. |
| `GuardObjects.DestroyGuard` | ext/ruble/utils/ruby_context.hpp:49-51 | On real objects the destruction does what the accounting says. |
| `RubyContext.GuardAccounting` | ext/ruble/utils/ruby_context.hpp:46-63 | After any sequence of creations, moves of every kind and destructions, each context's count is its live guards plus the moves made out of a guard on it, modulo the 64-bit width. |
| `RubyContext.KeepsAccounted` | ext/ruble/utils/ruby_context.hpp:46-63 | The account is kept along every run from any accounted world. |
| `RubyContext.HeldMeansInRuby` | ext/ruble/utils/ruby_context.hpp:34-41 | While a guard lives, the state is true and letting go does not wrap below zero, if and only if live guards and moves do not add up to a multiple of 2^64. |
| `RubyContext.ReleasedExactlyWithoutMoves` | ext/ruble/utils/ruby_context.hpp:57-63 | With all guards gone the count is zero exactly when no move was made, modulo 2^64. |
| `GuardObjects.StateExactly` | ext/ruble/utils/ruby_context.hpp:41 | On real objects `state` is true exactly when live guards and moves do not add up to a multiple of 2^64. |
| `GuardObjects.StateFollowsGuards` | ext/ruble/utils/ruby_context.hpp:34-41 | On real objects, while the true count fits 64 bits: `state` is true while a guard lives, and false with no guard and no move made. |
| `RubyContext.BalancedStretch` | ext/ruble/management/RubyQueue.cpp:79-83 | Over a move-free stretch with as many live guards at its end as at its start, such as a queue callback, the count returns to its starting value. |
| `RubyContext.AssigningTemporaryLeaks` | ext/ruble/bindings/RuBLE.cpp:76 | Assigning a temporary guard to an empty one leaves a count of two for one live guard. |
| `NamedBitSet.NamedBits.constructor` | ext/ruble/containers/NamedBitSet.hpp:113 | A new set has no bit set. |
| `NamedBitSet.NamedBits.IndexOf` | ext/ruble/containers/NamedBitSet.ipp:63-70 | Finds the first field of the name; fails exactly for names that are no field. |
| `NamedBitSet.NamedBits.SetAll` | ext/ruble/containers/NamedBitSet.ipp:24-32 | For names in any order and with repeats each bit says whether its field is among them; it fails exactly when some name is no field. |
| `NamedBitSet.NamedBits.SetTested` | ext/ruble/containers/NamedBitSet.ipp:14-19 | Each bit is the answer of its field's tester, and clear without one. |
| `NamedBitSet.NamedBits.Names` | ext/ruble/containers/NamedBitSet.ipp:40-47 | The set fields' names in field order, as the round trips below take them. |
| `NamedBitSet.NamedBits.ToS` | ext/ruble/containers/NamedBitSet.ipp:11-12 | The printed form that is proved injective below. |
| `NamedBitSet.BitsOfFlagNames` | ext/ruble/containers/NamedBitSet.ipp:24-47 | Building a set from the flag names of a set gives the set back. |
| `NamedBitSet.FlagNamesOfBits` | ext/ruble/containers/NamedBitSet.ipp:24-47 | Building from any list of names gives, as flag names, the fields that occur in the list. |
| `NamedBitSet.NamesInOrder` | ext/ruble/containers/NamedBitSet.ipp:40-47 | The flag names stand in field order, each once. |
| `NamedBitSet.IntegerFacts` | ext/ruble/containers/NamedBitSet.hpp:105-107 | Up to 64 fields the integer is the sum of 2^i over the set bits, is below 2^N, and determines the set. |
| `NamedBitSet.PrintedIsInjective` | ext/ruble/containers/NamedBitSet.ipp:11-12 | For distinct, non-empty field names without the separator, splitting the printed form recovers the names, so equal strings mean equal sets. |
| `NamedBitSet.NamesInUse` | ext/ruble/bindings/Characteristic.hpp:26-32 | The name lists in use meet those conditions. |
| `Strings.SplitUndoesJoin` | ext/ruble/utils/containers.hpp:12-20 | Splitting undoes the left fold of `join`, for non-empty names without the separator. |
| `Strings.PiecesOfBoth` | ext/ruble/utils/containers.hpp:12-20 | Splitting what is in front of a separator and what is behind it, independently. |
| `Hexadecimal.RangeToHexData` | ext/ruble/utils/hexadecimal.hpp:67-90 | The text built in place is the prefix, if any, and the digits whose meaning is given below. |
| `Hexadecimal.HexDataDecodes` | ext/ruble/utils/hexadecimal.hpp:67-90 | The digits decode to the big-endian value, are even in number and at least two. |
| `Hexadecimal.HexDataIsCanonical` | ext/ruble/utils/hexadecimal.hpp:67-90 | Two byte ranges print alike exactly when they have the same big-endian value. |
| `Hexadecimal.HexDataIsShortest` | ext/ruble/utils/hexadecimal.hpp:67-90 | The text is made of lower-case hexadecimal digits, and more than two of them never start with a zero byte. |
| `Hexadecimal.RefToHexStringDecodes` | ext/ruble/utils/hexadecimal.hpp:40-45 | An unsigned integer of n bytes prints as 2n lower-case hexadecimal digits, after "0x" if asked for, and parses back to itself. |
| `ByteArray.ByteArrayObject.FromUnsigned` | ext/ruble/containers/ByteArray.hpp:47-53 | On hosts of either byte order the data are the value's little-endian bytes. |
| `ByteArray.ByteArrayObject.ToI` | ext/ruble/containers/ByteArray.hpp:115-125 | On hosts of either byte order the value is that of the first bytes in little-endian order; it warns exactly when bytes are left over. |
| `ByteArray.CharsPerValue` | ext/ruble/containers/ByteArray.hpp:34-39 | The least number of characters that holds the value. |
| `ByteArray.DecodeEncoded` | ext/ruble/containers/ByteArray.hpp:47-53 | Encoding at one width and decoding at a width no larger gives the value modulo 2^(8u). |
| `ByteArray.BytesOfValue` | ext/ruble/containers/ByteArray.hpp:115-125 | Decoding and then encoding at equal length returns the bytes. |
| `ByteArray.StoredByteAt` | ext/ruble/containers/ByteArray.hpp:47-53 | How hosts differ: in memory the byte of weight 256^i is at position i on a little-endian host and at the mirrored position on a big-endian one. |
| `ByteArray.ByteAt` | ext/ruble/containers/ByteArray.hpp:47-53 | The byte at position i is the value's digit of weight 256^i. |
| `Arity.CallbackTraits.constructor` | ext/ruble/utils/RubyCallbackTraits.cpp:5-17 | The counters hold each kind's count modulo 256. |
| `Arity.CallbackTraits.AcceptsNArgs` | ext/ruble/utils/RubyCallbackTraits.hpp:33-40 | Procs that are not lambdas accept any number; lambdas by the 8-bit rule of which the next lemmas speak. |
| `Arity.AssertAcceptsNArgs` | ext/ruble/utils/RubyCallbackTraits.cpp:19-27 | Passes exactly for an allowed nil, a plain proc, or a lambda that the check accepts. |
| `Arity.CheckIsExact` | ext/ruble/utils/RubyCallbackTraits.hpp:33-40 | With each count, and required plus optional, at most 255, the check accepts exactly when an assignment of the n arguments fills every required parameter, leaves none over, and no keyword is required. |
| `Arity.CallableIsInRange` | ext/ruble/utils/RubyCallbackTraits.hpp:33-40 | Such an assignment exists exactly under the plain range rule. |
| `Arity.CheckIsRightExactly` | ext/ruble/utils/RubyCallbackTraits.hpp:33-40 | Without the limit: the check is right for every n up to 255 if and only if the wrapped counts meet a stated condition. |
| `Arity.AcceptsTooFew` | ext/ruble/utils/RubyCallbackTraits.hpp:37-39 | Failing inputs: with a positive multiple of 256 required parameters the check accepts a callback for no arguments, which cannot be called with none. |
| `Arity.RefusesAll` | ext/ruble/utils/RubyCallbackTraits.hpp:37-39 | Failing inputs: with required and optional counts of at most 255 and a sum beyond, every callable number of arguments up to 255 is refused. |

## Left out

- `kill` beyond its call of `stop`: what the Ruby VM does to the thread; a killing thread takes no further step.
- `ensure_started`, `_startup_latch`, `_thread_id`, `_rb_thread`, and failure of thread creation: no other modelled operation depends on them.
- The global VM lock, exceptions leaving a callback, and queue operations called from inside a running callback on the consumer thread.
- Debug output and backtraces: no effect on the state.
- The time limit in `wait_until` and `stop_on_exit`: whether time is up is an input of each check.
- A device change and the append of its notification are one step in `QueueCoherence`, and a read's answer and its recording are one step: a change between the two is not modelled. Neither is a device change whose notification a debug build refuses after stop.
- Indications: `fire_on_indicate` records nothing and always fires; in the queue they are closures without a payload.
- Concurrent calls of `Registry::fetch` and `clear` are serialised by their mutex and modelled one at a time; concurrent calls of `RegistryFactory::registry` have no mutex and are modelled one at a time as well.
- Proxy construction inside `fetch`: a proxy is its number, its key, the value it wraps and its owner.
- Marking of descriptors and of the adapter object itself: outside the traversal's claim, as is the order in which a map is visited.
- ByteArray.ByteArrayObject.ToI: requires the data to be at least as long as the integer type, because the code reads that many bytes without a check.
- `ByteArray` constructors from a character or a boolean, and `operator!`: their intent and their code disagree; the bitwise operators are `to_i` followed by the machine's operator.
- Signed integers in `ref_to_hex_string`, and the forwarding wrappers around the printers.
- The width of the target type in the integer conversion of a flag set: its constraint is a compile-time condition.
- Parameter kinds of Ruby other than the six that are listed in `RubyCallbackTraits.hpp`.
- Adapter scanning, connecting, pairing and writing, `inspect` strings, and the build tooling: input, output or thin wrappers around the library.
