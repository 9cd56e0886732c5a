# Verified model of node-librados

node-librados binds Ceph's RADOS and RBD client libraries to Node.js. Most of it forwards calls. This
project models the parts that have logic of their own, and proves what they promise:

1. **The lifetime of native handles.** A cluster owns I/O contexts and monitor logs, a context owns images and
   object watches, an image owns update watches. Each handle has a reader-writer lock, a `closed_` flag and an
   atomic child counter; JavaScript calls, pool workers, Ceph callback threads and destructors all act on the tree
   at once. `Lifetime.dfy` is a step system in which one step is one atomic action of the C++ code, so every
   interleaving is a run. `close_checked` is two steps, as in the code. `LifetimeInvariant.dfy`,
   `LifetimeSafety.dfy` and `LifetimeSteps.dfy` prove an invariant of every step; `LifetimeTheorems.dfy` draws the
   safety conclusions, `LifetimeOverlap.dfy` says exactly when tree safety can fail, `LifetimeProgress.dfy` is
   about deadlock and termination, `LifetimeClosing.dfy` says exactly what closes can take down,
   `LifetimeDangling.dfy` exactly when a callback can lose its `Data`, `LifetimeReclaim.dfy` is about memory, and
   `LifetimeWitness.dfy` has the failing runs. `HandleState.dfy` and
   `Subscriptions.dfy` have the same objects as classes, for a thread that meets no contention, and `LifetimeAlone.dfy`
   proves that the step system does the same when undisturbed.
2. **Bounded event delivery.** Native callbacks check `closed`, exchange the loss counter with zero, try to
   enqueue, and on refusal add the loss back and, for object watches, acknowledge empty. `Delivery.dfy` is the step
   system for all three kinds of callback, any number of them at once, `DeliveryIndex.dfy` says exactly when what
   is delivered can be indexed, and `DeliveryChannel.dfy` is the native object. `Dispatch.dfy` and
   `DispatchTheorems.dfy` add the JavaScript side, and `SubscriptionObjects.dfy` has its classes.
3. **NUL-packed lists and growing buffers.** `Bytes.dfy`, `NulLists.dfy`, `Utf8.dfy` and `Dictionary.dfy` have the
   pointer loop that reads the libraries' lists and the JavaScript encoder that writes one; `GrowingBuffers.dfy`
   has the three retry loops.

## Which source line is which step

The definitions below have no contract of their own; the members in the table that follows are about them.

- `Handles.Cell`: the fields and atomic actions of `HandleState`, src/common.h lines 23-68.
- `Lifetime.EnterDelta`, `LeaveDelta`: `use`, src/common.h lines 34-39.
- `Lifetime.CloseLoadDelta`: the counter load of `close_checked`, src/common.h line 58. `CloseWaitDelta`,
  `CloseBodyDelta`, `CloseUnlockDelta`: `close_now`, src/common.h lines 41-48, entered directly by the destructor,
  line 29.
- `Lifetime.OpenedDelta`, `OpenAddDelta`, `CloseRemoveDelta`: opening a context, src/cluster.cpp lines 220-228, or an
  image, src/rbd.cpp lines 79-82, and the counter update in its close closure. A successful open counts the new
  object's wrapper as an owner, and that wrapper as an owner of the parent, as `NewInstance` passes both.
- `Lifetime.SubAddDelta`, `RegisteredDelta`, `SubLeaveDelta`, `SubFailDelta`: the three `Create` functions,
  src/events.cpp lines 93-117, 221-242 and 305-326.
- `Lifetime.EndExchangeDelta`, `UnregisterDelta`, `FlushDelta`, `ReleaseDelta`, `RemoveDelta`: the three
  `Data::close`, src/events.cpp lines 27-34, 172-180 and 270-278; `DropCheck` is the destructors' test, lines 128-130,
  253-255, 337-339.
- `Lifetime`'s `AckWait` and `AckBody`: `ObjectWatchWrap::Ack`, src/events.cpp lines 138-155.
- `Lifetime`'s `Callback...` program counters: `object_watch_cb` as far as locks are concerned, src/events.cpp lines
  37-63.
- `Delivery.Next`, `Delivery.Apply`: the callbacks, src/events.cpp lines 37-80, 183-210 and 281-294.
- `Dispatch.Dispatched`, `Dispatch.HandOut`: `dispatch`, src-ts/index.ts lines 179-183, 192-210 and 218.
- `NulLists.ScanFrom`: `nul_strings`, src/rbd.cpp lines 25-29. `Dictionary.Encoded`: src-ts/index.ts lines 14-18.

An overlap at an open handle is a state in which one thread registers under it (it is between `use` and
`add_child`, in whichever order) and another is between the two steps of `close_checked` on it. The history field
`exposed` collects the handles at which some state so far had an overlap, or whose 32-bit counter has wrapped.
Theorems that have an exception have exactly this one.

What is assumed of the libraries: once `rados_unwatch2` and then `rados_watch_flush` have returned, no callback of
that watch is running or will start; a flush waits until no callback of any watch of its cluster is running, and for
nothing else; a size-too-small answer is given only when the buffer is too small; what is stored does not change during
one lookup. Memory allocation and the creation of JavaScript objects succeed. Until its flush a watch may be called back
at any time, even after `rados_shutdown`: the safety theorems do not need librados to stop then, and
`LifetimeDangling.DanglesBeforeShutdownIff` says what changes if it does.

## Model

| member | source | states |
|---|---|---|
| Handles.AddRemoveCancel | src/common.h:55-56 | adding and removing a child cancel in either order, also across the wrap of the 32-bit counter |
| Handles.HandleState.AddChild | src/common.h:55 | the whole new state: one more child, modulo 2^32 |
| Handles.HandleState.RemoveChild | src/common.h:56 | the whole new state: one child less, modulo 2^32 |
| Handles.HandleState.EnterUse | src/common.h:35-38 | gives the handle and holds the shared lock exactly if the flag is clear and the handle is there; otherwise throws and leaves the lock as it was |
| Handles.HandleState.LeaveUse | src/common.h:36-38 | the shared lock is given back and nothing else changes |
| Handles.HandleState.CloseNow | src/common.h:41-48 | closed and nulled afterwards; the native close gets the original handle at most once, and the parent's counter drops exactly if it ran |
| Handles.HandleState.CloseChecked | src/common.h:57-60 | with a counted child nothing changes and the answer is -EBUSY; without one the handle closes with the closure's code |
| Handles.OpenUnder | src/cluster.cpp:220-228 | a failed or throwing open leaves the parent as it was; a successful one counts one child and returns a fresh open handle under it (same shape as src/rbd.cpp 79-82) |
| Handles.OpenThenClose | src/rbd.cpp:81 | while the child is open its parent answers -EBUSY; closing the child restores the parent exactly |
| Subscriptions.Data.Register | src/events.cpp:93-117 | the registration in `Create`: the parent's count, the closed flag and the native calls made, for success, refusal and a throwing `use` |
| Subscriptions.Data.Close | src/events.cpp:27-34 | `Data::close`: which native calls run and in which order, what is counted afterwards, and the result code, for all three subscriptions and every throwing `use` |
| Subscriptions.CreatedOutcome | src/events.cpp:103-117 | what a registration comes to: a throw leaves the child counted and calls nothing; a refusal restores the parent, sets the flag and releases the callback; a success counts one child more |
| Subscriptions.ClosedOutcome | src/events.cpp:27-34 | what the first close comes to: it throws exactly if a handle it uses is closed; otherwise it calls unregister, flush and release in this order, takes one child off, and answers the unregister call's code if that failed or there is no flush, else the flush's |
| Subscriptions.ClosedAgain | src/events.cpp:28 | a second close answers 0 and changes nothing, whatever the first did |
| Subscriptions.CreateCloseRestores | src/events.cpp:103-107 | after a successful registration, the first close gives the parent back as it was if and only if it does not throw |
| LifetimeSteps.StepKeepsInv | src/common.h:23-68 | every atomic action of every thread keeps the whole invariant: life stages, locks, counters, open ancestors, memory, callbacks |
| LifetimeTheorems.RunKeepsInv | src/common.h:23-68 | every run keeps the whole invariant, whatever threads and operations it interleaves |
| LifetimeAlone.OpenAlone | src/cluster.cpp:220-228 | an undisturbed open in the step system: one open, counted, owned child of the right kind more and one owner of the parent more; where the parent is closed or the native open fails, no change (same shape as src/rbd.cpp 79-82) |
| LifetimeAlone.CreateAlone | src/events.cpp:93-117 | an undisturbed registration in the step system does to the nodes exactly what the object does: parent counter, flag, native registration, release |
| LifetimeAlone.EndAlone | src/events.cpp:27-34 | an undisturbed subscription close in the step system does to the nodes exactly what the object does, throws included |
| LifetimeAlone.DropAlone | src/events.cpp:128-130 | dropping the wrapper of a subscription, ended or not, does to the nodes what its close does |
| LifetimeAlone.ConnectAlone | src/cluster.cpp:89 | connecting makes one open cluster, held by its wrapper only |
| LifetimeAlone.WrapperAlone | src/cluster.cpp:226 | a held wrapper can be copied and dropped at any time: one owner more or less, and nothing else |
| LifetimeAlone.WorkAlone | src/common.h:35-38 | a forwarding operation can start while its wrapper is held, makes its native call inside the shared lock exactly if the handle is open, and leaves every node as it was |
| LifetimeAlone.AckAlone | src/events.cpp:138-155 | an acknowledgement can start while the watch's wrapper is held, reaches the native call exactly if the context is open, and leaves every node as it was |
| LifetimeAlone.NotifyAlone | src/events.cpp:37-63 | a callback acknowledges exactly if the watch is not ended and its event is refused: natively if the context is open, with a throw if not; the callback of an ended watch returns at once; nothing else changes |
| LifetimeTheorems.ExposedByRun | src/common.h:57-60 | the history is exact: a handle is exposed only if some state of the run had the overlap or the wrap |
| LifetimeTheorems.TreeSafety | src/common.h:57-60 | in every reachable state, a node that exists natively has all its ancestors open, unless one of them has been exposed |
| LifetimeTheorems.TreeSafetyWithoutOverlap | src/common.h:57-60 | after a run that exposes no ancestor of a node, whatever it does elsewhere, tree safety holds for the node outright, also for a watch between its unregistration and its flush |
| LifetimeTheorems.NothingAttachesBelowClosed | src/common.h:36-37 | below a closed handle nothing becomes attached any more, so an overlap at a closed handle is harmless |
| LifetimeOverlap.OverlapCanBreak | src/common.h:57-60 | from every state of the invariant, an overlap at an open handle has a continuation, of steps already under way only, that leaves a live child under the closed handle |
| LifetimeOverlap.BreaksIffOverlaps | src/common.h:57-60 | exactly when tree safety can fail: while its counter does not wrap, some continuation leaves a live child under a closed handle if and only if some continuation overlaps at it while it is open |
| LifetimeWitness.OverlapBreaksTreeSafety | src/cluster.cpp:220-228 | the exception is real: a reachable state of two threads in which a cluster is being shut down over a live context |
| LifetimeTheorems.ClosedMeansSubtreeGone | src/cluster.cpp:133-136 | if something exists natively below a closed handle, then some closed handle between the two has been exposed |
| LifetimeTheorems.UseExcludesClose | src/common.h:34-48 | no `use` body runs while its handle is being closed or afterwards |
| LifetimeTheorems.CloseIsExclusive | src/common.h:41-48 | one exclusive holder at a time, and the close closure gets the original handle, for the first time |
| LifetimeTheorems.ClosedOnce | src/common.h:41-48 | the native close runs at most once, never on an open handle, and has run once when the closing is over |
| LifetimeTheorems.ClosedForever | src/common.h:44 | the closed flag is never cleared, over any run |
| LifetimeTheorems.ChildrenCloseFirst | src/cluster.cpp:226 | when a native close runs, no child of the handle exists natively, unless the handle was exposed |
| LifetimeTheorems.DestructorClosesLast | src/common.h:29 | when a destructor is about to close a handle, its children are closed and out of memory, with no exception, although it skips the busy check |
| LifetimeTheorems.NoWriterAboveWatch | src/events.cpp:27-34 | while a watch is to be unregistered and flushed, nobody holds or waits for its context's exclusive lock, unless the context was exposed |
| LifetimeTheorems.CounterExact | src/common.h:55-60 | the counter is the number of registered and not yet removed children, modulo 2^32, and outright while the handle is not exposed |
| LifetimeTheorems.NoUnderflow | src/common.h:56 | every `remove_child` has a child to remove, exposed or not; the counter it finds is zero exactly where the number of children is a multiple of 2^32 |
| LifetimeTheorems.KidsOfOpenHandle | src/events.cpp:103-117 | an open handle's counter includes only children that exist natively or that a thread is creating or tearing down, save below an exposed ancestor; registrations that leak are under closed handles |
| LifetimeTheorems.TeardownOnce | src/events.cpp:27-34 | for any number of closers and a destructor: unregister, flush, release and remove run at most once, in this order, and exactly once when done; a refused `Create` never unregisters |
| LifetimeTheorems.TeardownNeverThrows | src/events.cpp:29-30 | the two `use` calls of a teardown and the one of an overflow acknowledgement find their handles open, unless an ancestor was exposed |
| LifetimeTheorems.RestsForever | src/events.cpp:28 | a node that is closed, ended, stranded or never came to be keeps its stage in every run: no step resumes it |
| LifetimeTheorems.ThrowLosesRelease | src/events.cpp:104-117 | after a `use` that throws in `Create` or in `Data::close`, no run ever releases the callback or removes the child |
| LifetimeTheorems.CallbackKeepsData | src/events.cpp:39-40 | a running callback's `Data` is in memory, unless the watch's teardown has thrown, below an exposed handle |
| LifetimeDangling.DanglesIffThrows | src/events.cpp:27-40 | from every state of the invariant, a callback of a watch can come to run without its `Data` if and only if a teardown of that watch can come to throw |
| LifetimeDangling.DanglesIff | src/common.h:37 | exactly which watches at rest those are, while no counter above them wraps: both can happen if and only if the context or the cluster is closed, the test of the failing `use` |
| LifetimeDangling.DanglesBeforeShutdownIff | src/events.cpp:29-30 | and without any callback after the shutdown of the cluster: if and only if the context is closed and the cluster is not |
| LifetimeWitness.DanglingReached | src/events.cpp:27-40 | such a state can be reached: the watch of a context closed inside the window is closed, which throws, and dropped, and called back while its cluster still exists |
| LifetimeTheorems.FreedOrder | src/cluster.cpp:226 | what is freed is owned by nobody, everything below it has been freed, and a handle among it has had its one native close |
| LifetimeProgress.NoDeadlock | src/events.cpp:27-34 | in every state that satisfies the invariant, if an operation is under way some thread can step, even when readers queue behind waiting writers and each flush waits for the callbacks of all watches of its cluster, with or without overlaps |
| LifetimeProgress.WorkIsBounded | src/common.h:34-60 | operations already started take boundedly many steps in every interleaving |
| LifetimeProgress.Drains | src/events.cpp:27-63 | from every state that satisfies the invariant, the operations under way can all run to their end, within the bound |
| LifetimeClosing.ClosesIff | src/common.h:57-60 | exactly which open nodes, at rest, one close takes down: a handle if and only if its counter is zero, a subscription if and only if its parent and, for an object watch, its cluster are open |
| LifetimeClosing.UnexposedCloses | src/events.cpp:27-34 | an open subscription at rest none of whose ancestors has been exposed can be closed |
| LifetimeClosing.NativeForever | src/events.cpp:29 | a registration below a closed parent is never unregistered again, by any run |
| LifetimeClosing.UnflushableForever | src/events.cpp:30-32 | a watch not yet flushed when its cluster is closed stays counted, by any run |
| LifetimeClosing.ClogKeepsOpen | src/common.h:58 | an open context with such a watch answers -EBUSY to every close, in every run that starts closes only |
| LifetimeWitness.StuckTreeReached | src/events.cpp:93-117 | such a stuck tree can be reached: an object watch registered inside the window, at rest in its closed context, that no run ever unregisters |
| LifetimeClosing.LeafExists | src/common.h:57-60 | in a sound tree at rest with something open, some open node has no counted child and can be closed |
| LifetimeClosing.CloseNode | src/common.h:57-60 | the close of such a node takes one operation and leaves every other node's native object, count and flag alone |
| LifetimeClosing.CloseEverything | src/cluster.cpp:133-136 | a sound tree whose open nodes' wrappers are held is emptied by exactly as many closes as it has open nodes |
| LifetimeClosing.EmptiedIffSound | src/cluster.cpp:133-136 | no stuck trees, exactly: with wrappers held and counters not wrapped, closes alone can empty a tree at rest if and only if every open subscription's handles are open and open handles count open children only |
| LifetimeClosing.UnexposedIsSound | src/common.h:57-60 | a tree at rest is sound if no ancestor of what is open or counted in it has been exposed |
| LifetimeReclaim.UnownedExists | src/cluster.cpp:226 | ownership has no cycle: with every wrapper dropped and no operation under way, some node in memory is unowned |
| LifetimeReclaim.Reclaimed | src/common.h:29 | with every wrapper dropped and no operation under way, destructors alone reclaim every node |
| LifetimeReclaim.WrappersBalance | src/cluster.cpp:220-228 | over every run, the owners of a handle are those granted, by its own creation, by opens under it and by copies, less those dropped |
| LifetimeReclaim.DestroyedWhenDropped | src/common.h:29 | so the destructor of a handle runs only when every owner it was ever granted has been dropped |
| Delivery.LossConserved | src/events.cpp:37-63 | in every interleaving, signals past the closed check = what delivered and queued events stand for + the counter + the shares of callbacks under way |
| Delivery.CounterIsUntold | src/events.cpp:206-209 | exactly when the counter is what JavaScript has not been told: when neither the queue nor a callback under way stands for a signal |
| Delivery.ErrorsTouchNoCounter | src/events.cpp:65-80 | error events take a queue slot but leave the counter and every sum alone |
| Delivery.QueueIsBoundedFifo | src/events.cpp:102 | the queue holds at most `queue_size` events, and what was enqueued is never reordered or taken back |
| Delivery.ExactlyOneFate | src/events.cpp:45-62 | at any moment of any interleaving, whatever the other callbacks do: a notification is exactly one of queued, handed to JavaScript and acknowledged empty if its own callback has completed, and none of them if not; the last exactly if it was refused |
| Delivery.NeverTwice | src/events.cpp:45-62 | at any moment, no signal is enqueued twice, and none is both enqueued and acknowledged empty |
| Delivery.EnqueuesIff | src/events.cpp:45 | a step enqueues exactly if it is a callback trying to, the queue is not full and the thread-safe function is not closing; then it appends that event |
| Delivery.FlagsIff | src/events.cpp:28-31 | the closed and the released flag are set exactly if the run, or what came before it, sets them |
| Delivery.ClosedLetsNothingPass | src/events.cpp:40 | once `closed` is set, in every run no signal passes the check any more, and what is enqueued comes from callbacks already past it |
| Delivery.ReleasedEnqueuesNothing | src/events.cpp:31 | once the thread-safe function is released, no run enqueues anything |
| Delivery.OnlyNotificationsAcked | src/events.cpp:206-209 | log lines and image updates are never acknowledged |
| DeliveryIndex.EnqueuedIff | src/events.cpp:44-55 | for any interleaving: an enqueued signal's arrival number completes the running sum if and only if the counter and the other callbacks stand for exactly the later arrivals |
| DeliveryIndex.IndexedIff | src/events.cpp:41-58 | lifted to runs: the first n events are indexed if and only if each was enqueued in its turn, in that sense |
| DeliveryIndex.DeliveredIndexedIff | src/events.cpp:41-58 | the same of what has been delivered so far |
| DeliveryIndex.DeliveredPositive | src/events.cpp:284 | in every interleaving, each delivered event stands for at least one signal: an update's count is never zero |
| DeliveryIndex.DeliveredIndexed | src/events.cpp:41-58 | with serial callbacks every signal takes its turn, so the arrival number of each delivered signal is the running sum of what the events up to it stand for, less one |
| DeliveryIndex.GapsReported | src/events.cpp:281-294 | delivered signals are in arrival order, and the gap before each is exactly what it reports; an update's count is at least 1 |
| DeliveryIndex.FirstGapReported | src/events.cpp:41-58 | the first delivered signal reports exactly the arrivals before it |
| DeliveryIndex.ConcurrencyBreaksIndex | src/events.cpp:37-63 | a run of two callbacks at once in which the second arrival is enqueued out of turn and then reads as the first |
| DeliveryChannel.FinishIsRun | src/events.cpp:37-63 | an undisturbed callback is a serial run of the step system |
| DeliveryChannel.CallbackKeeps | src/events.cpp:37-63 | a whole undisturbed callback keeps conservation and the index |
| DeliveryChannel.CallbackSteps | src/events.cpp:281-294 | what an undisturbed callback comes to: nothing when closed, the event appended with the loss or count so far when there is room, the counter one higher when there is not |
| DeliveryChannel.ErrorSteps | src/events.cpp:65-80 | what an undisturbed error callback comes to: nothing when closed or without room, the error appended otherwise |
| DeliveryChannel.Channel.NonBlockingCall | src/events.cpp:45-55 | succeeds exactly if the queue is neither full nor closing, and then appends |
| DeliveryChannel.Channel.OnNotification | src/events.cpp:37-63 | the whole new state of `object_watch_cb`, closed, enqueued and refused, and that this is what the step system's callback does, run to its end; conservation and the index are kept |
| DeliveryChannel.Channel.OnError | src/events.cpp:65-80 | the whole new state of `object_watch_error_cb`, and that this is what the step system's error callback does |
| DeliveryChannel.Channel.OnLogLine | src/events.cpp:183-210 | the whole new state of `monitor_log_cb`, without an acknowledgement, and that this is what the step system's callback does |
| DeliveryChannel.Channel.OnUpdate | src/events.cpp:281-294 | the whole new state of `image_update_cb`, with the count that includes the signal itself, and that this is what the step system's callback does |
| DeliveryChannel.Channel.Take | src/events.cpp:45-55 | the oldest event leaves the queue, and the invariant stays |
| DeliveryChannel.Channel.BeginClose | src/events.cpp:28 | the flag is set; only the first caller is told to go on |
| DeliveryChannel.Channel.Release | src/events.cpp:31 | the thread-safe function closes; what is queued stays |
| DispatchTheorems.TraceTellsIff | src-ts/index.ts:188-210 | end to end and exactly, for any interleaving and any listeners: each emitted notification, log line or update has as arrival number the emitted count plus the reported losses up to it, less one, if and only if every event dispatched while open had been enqueued in its turn |
| DispatchTheorems.TraceTellsArrivals | src-ts/index.ts:188-210 | so with serial native callbacks it always has |
| DispatchTheorems.EmittedOnceInOrder | src-ts/index.ts:179-218 | whatever the listeners do, each event dispatched while open, but for errors that nobody hears, is emitted exactly once and in order, with its arrival number and its loss or count |
| DispatchTheorems.EmittedAsItsKind | src-ts/index.ts:182-218 | a watch emits notifications and errors, a log subscription log lines, an image watch updates |
| Dispatch.DispatchedSignal | src-ts/index.ts:192-210 | one dispatch: the overflow first, if there is a loss, then the event; a notification is acknowledged exactly if the listeners do so or `autoAck` is on |
| DispatchTheorems.ReplayThrowsIff | src-ts/index.ts:195 | replaying an early event throws if and only if it is an error, since nobody can listen yet |
| DispatchTheorems.ReplayIsDirect | src-ts/index.ts:98-105 | the caller gets its subscription if and only if no early event is an error, and then replaying them was dispatching them |
| DispatchTheorems.EarlyErrorLoses | src-ts/index.ts:101-103 | of the replay loop by itself, see Observations: an error in its list would cost the caller the watch, and the notification behind it would be neither emitted nor acknowledged |
| DispatchTheorems.AckedAtMostOnce | src-ts/index.ts:198-209 | native empty acknowledgements and JavaScript's together acknowledge each notification at most once |
| DispatchTheorems.AutoAckExactlyOnce | src-ts/index.ts:209 | with `autoAck`, each notification dispatched while the subscription is open has exactly one acknowledgement initiated, whatever the listeners do |
| DispatchTheorems.AckedIff | src-ts/index.ts:198-209 | exactly which notifications are acknowledged: one dispatched while open is, if and only if `autoAck` is on, the listeners acknowledge it during its dispatch, or somebody does later |
| DispatchTheorems.AcksAreNotices | src-ts/index.ts:201-205 | the acknowledgements initiated are those of the acknowledged notifications, one for each |
| DispatchTheorems.NobodyAcksNothing | src-ts/index.ts:209 | without `autoAck`, and with nobody acknowledging, nothing is acknowledged |
| DispatchTheorems.ClosedIff | src-ts/index.ts:211 | a subscription is closed if and only if somebody has called `close`, the listeners included; the native close is then initiated, once; there is one close event once that has resolved, and none before |
| DispatchTheorems.SilentAfterClose | src-ts/index.ts:180 | after `close` nothing but the close event is emitted |
| SubscriptionObjects.MonitorLogSubscription.Dispatch | src-ts/index.ts:179-183 | overflow if there is a loss, then the log line, whether the listeners close early, late or not; nothing when closed; and this is the dispatch specification |
| SubscriptionObjects.MonitorLogSubscription.Close | src-ts/index.ts:184 | the synchronous part of close: the flag is set and the native close initiated, by the first call only |
| SubscriptionObjects.MonitorLogSubscription.Closed | src-ts/index.ts:184 | behind the `await`: one close event for the native close that has resolved |
| SubscriptionObjects.ObjectWatch.Dispatch | src-ts/index.ts:192-210 | overflow if there is a loss, then the notification, acknowledged exactly if the listeners do so, any number of times, or `autoAck` is on; an error that nobody listens for is thrown; nothing when closed; and this is the dispatch specification |
| SubscriptionObjects.ObjectWatch.Ack | src-ts/index.ts:201-205 | the first call acknowledges natively, later ones reject and change nothing |
| SubscriptionObjects.ObjectWatch.Close | src-ts/index.ts:211 | the flag is set and the native close initiated, by the first call only |
| SubscriptionObjects.ObjectWatch.Closed | src-ts/index.ts:211 | behind the `await`: one close event for the native close that has resolved |
| SubscriptionObjects.ImageUpdateWatch.Dispatch | src-ts/index.ts:218 | one update event with the count unless closed; and this is the dispatch specification |
| SubscriptionObjects.ImageUpdateWatch.Close | src-ts/index.ts:219 | the flag is set and the native close initiated, by the first call only |
| SubscriptionObjects.ImageUpdateWatch.Closed | src-ts/index.ts:219 | behind the `await`: one close event for the native close that has resolved |
| SubscriptionObjects.Watch | src-ts/index.ts:98-105 | the new watch is as if every early event before the first error had been dispatched to it, in order; that error, if any, is thrown |
| SubscriptionObjects.MonitorLogs | src-ts/index.ts:63-70 | the new subscription is as if every early log entry had been dispatched to it, in order |
| SubscriptionObjects.WatchUpdates | src-ts/index.ts:153-160 | the new watch is as if every early count had been dispatched to it, in order |
| NulLists.NulStrings | src/rbd.cpp:25-29 | the pointer loop computes the scan, and says when `strlen` would leave the buffer; the loop of src/cluster.cpp 181 is the same |
| NulLists.ScanReads | src/rbd.cpp:27 | what the scan returns, exactly, for a list of any length in any buffer: the non-empty fields that lie there one behind the other, each begun before the end of the list and ended by its NUL wherever that is |
| NulLists.ScanPackedFrom | src/rbd.cpp:27 | the scan of any buffer, as terminated fields and a tail: the fields before the first empty one, or an overrun exactly if there is a tail and no empty field |
| NulLists.ScanPack | src/rbd.cpp:25-29 | a packed list reads back as its longest prefix without an empty string, inside the buffer |
| NulLists.ScanPackWhole | src/rbd.cpp:88-90 | the whole list comes back if and only if it has no empty string |
| NulLists.ScanSafeIff | src/rbd.cpp:27 | for a list of any length in a buffer: the scan stays inside the buffer if and only if the list is at its end, holds an empty field, or its last field is terminated inside the buffer |
| NulLists.SlackIgnored | src/cluster.cpp:181 | what lies behind a terminated list is never read |
| NulLists.ScannedFields | src/rbd.cpp:27 | only non-empty NUL-free strings come out |
| NulLists.PairUp | src/rbd.cpp:167 | the loop pairs what the scans of the two reported lengths return, position by position |
| NulLists.MetadataPrefix | src/rbd.cpp:167 | with buffers that may be larger than their lists, the pairs are exactly those before the first empty key or empty value, each key with its own value |
| Utf8.EncodeNul | src-ts/index.ts:17 | UTF-8 has a zero byte exactly where the text has U+0000 (section 3 of RFC 3629) |
| Utf8.EncodeAcrossNul | src-ts/index.ts:17 | a NUL separates the encodings of what it separates |
| Utf8.DecodeEncode | src-ts/index.ts:17 | well-formed text survives encoding and decoding |
| Utf8.EncodeForm | src-ts/index.ts:17 | from its first unit on, a text becomes the UTF-8 form (section 3 of RFC 3629) of a surrogate pair's code point, of U+FFFD for a surrogate without its partner, or of the unit, and then what the rest becomes |
| Utf8.Utf8Unique | src-ts/index.ts:17 | a code point has only one such form |
| Utf8.RepairKeepsEncoding | src-ts/index.ts:17 | replacing lone surrogates by U+FFFD gives well-formed text with the same bytes, and changes exactly the text that is not well-formed |
| Utf8.EncodeEqualIff | src-ts/index.ts:17 | two texts have the same bytes if and only if they agree once lone surrogates are replaced by U+FFFD |
| Dictionary.EncodeDictionary | src-ts/index.ts:14-18 | the loop computes the encoding of the flattened entries |
| Dictionary.FlattenAt | src-ts/index.ts:16 | the fields are each key with its value behind it, in the order of the entries |
| Dictionary.EncodedShape | src-ts/index.ts:17 | the encoding is the packed list of the fields' bytes and an empty field; that of the empty dictionary is two NULs |
| Dictionary.ScanEncoded | src-ts/index.ts:14-18 | the NUL-list scan of an encoded dictionary gives its keys and values in order up to the first empty one; the empty dictionary gives the empty list |
| Dictionary.RoundTripIff | src-ts/index.ts:14-18 | the whole dictionary is read back if and only if no key or value is empty or contains a NUL |
| Dictionary.EncodedEqualIff | src-ts/index.ts:14-18 | two dictionaries of NUL-free keys and values, empty ones included, have the same encoding if and only if they agree entry by entry once lone surrogates are replaced |
| GrowingBuffers.ConfigGet | src/cluster.cpp:108-116 | the longest NUL-free prefix of the stored value, with the first buffer of 256 times a power of two that holds the value and its terminator; or the library's error, or a closed handle |
| GrowingBuffers.GetXattr | src/io_context.cpp:146-149 | the value if and only if it is at most 64 MiB, with the first fitting buffer of 4096 times a power of two, in at most 15 attempts |
| GrowingBuffers.MetadataGet | src/rbd.cpp:164 | each buffer but the first is of the size the library reported, or twice the one before if that is no larger; only the last fits, two attempts do when the report is right, and the answer is the longest NUL-free prefix of the value |
| GrowingBuffers.TriedGrows | src/rbd.cpp:164 | such sizes grow strictly, whatever the library reports |
| Bytes.CStringUnique | src/rbd.cpp:164 | the longest NUL-free prefix is determined, and of a value without a NUL it is the whole value |
| GrowingBuffers.FirstFitUnique | src/cluster.cpp:112-113 | the first fitting buffer is determined by the value |
| GrowingBuffers.ConfGet | src/cluster.cpp:112 | assumption about `rados_conf_get`: too small exactly if the value and its terminator do not fit |
| GrowingBuffers.XattrGet | src/io_context.cpp:148 | assumption about `rados_getxattr`: too small exactly if the value does not fit |
| GrowingBuffers.MetaGet | src/rbd.cpp:164 | assumption about `rbd_metadata_get`: too small exactly if the value and its terminator do not fit; the reported size is arbitrary |

## Observations

- `close_checked` is there to refuse a handle that has children. Because its check and its close are two steps, a
  registration between them gets through (`LifetimeWitness.OverlapBreaksTreeSafety`), and can leave a tree that
  closes cannot empty (`LifetimeWitness.StuckTreeReached`).
- A `use` that throws in `Create` leaves its increment on the parent's counter, which is then closed already, so that
  a later close of it answers -EBUSY instead of 0; and nobody releases the thread-safe function (src/events.cpp lines
  102-117). One that throws in `Data::close` skips the release and the removal too
  (`LifetimeTheorems.ThrowLosesRelease`, and for a single call `Subscriptions.ClosedOutcome`).
- The repository's README (line 85) says that the next delivered event reports the loss. This holds of the next
  notification; an error event in between reports none (`Delivery.ErrorsTouchNoCounter`). With several callbacks at
  once the loss is still reported in full, but not necessarily by the event that follows it
  (`DeliveryIndex.ConcurrencyBreaksIndex`).
- A teardown whose `use` throws skips the flush. The watch's wrapper can then be dropped, which frees the `Data` that
  librados still has a raw pointer to, and the next callback reads it (`LifetimeDangling.DanglesIff`,
  `LifetimeWitness.DanglingReached`). Only a registration inside the window, or a counter that has wrapped, brings a
  watch into that position.
- Node.js runs the JavaScript half of a thread-safe call from its event loop, and `watch`, `monitorLogs` and
  `watchUpdates` are synchronous up to the end of their replay. So their lists of early events are always empty, and
  the replay never dispatches anything. What `DispatchTheorems.ReplayIsDirect`, `ReplayThrowsIff` and
  `EarlyErrorLoses` say of other lists is about the loops by themselves.

## Left out

- Delivery.LossConserved: for fewer than 2^64 signals per subscription, the range of the source's counters; the same
  holds of the serial theorems. The counters themselves are modelled with their wrap-around.
- LifetimeTheorems.CallbackKeepsData: object watches only; whether a monitor-log or image-update callback can still
  run after its unregister call depends on librados and librbd, which are not part of this model.
- LifetimeClosing.EmptiedIffSound: for trees whose open nodes' wrappers are held; what is dropped instead is the
  subject of `LifetimeReclaim`.
- LifetimeDangling.DanglesIffThrows: a `use` that throws in a wrapper's destructor (src/events.cpp lines 128-130)
  leaves a noexcept function, and one that throws in the overflow acknowledgement (lines 59-61) leaves a C callback.
  Either ends the process; the model's runs go on. `LifetimeDangling.DanglesIff` throws in an explicit `close` and is
  not affected.
- Delivery.ExactlyOneFate: an empty acknowledgement under way is counted as made, which assumes that its `use` does
  not throw; when it can is the subject of `LifetimeTheorems.TeardownNeverThrows`.
- SubscriptionObjects.ObjectWatch.Dispatch: listeners that throw, the error event that follows a rejected automatic
  acknowledgement, and what Node.js does with an error thrown out of a callback, are not modelled.
- SubscriptionObjects.ObjectWatch.Closed: for a native close that resolves; one that rejects emits no close event, and
  what becomes of the rejection is not modelled.
- GrowingBuffers.ConfigGet: one stored value per call; a value that changes between attempts is not modelled.
- The release of the shared lock is one step with the native call before it in `Lifetime.LeaveDelta`, which leaves
  nothing behind, and in `OpenedDelta`, `UnregisterDelta` and `FlushDelta`, whose effect then becomes visible with it.
- Each monitor log is modelled with a native registration of its own. librados has one per cluster handle, so a second
  log replaces the first and closing either ends both; the repository's README (line 87) documents a single one.
- Operations that only forward to librados and librbd, and the capability tables behind `advanced`.
- N-API plumbing: class registration, external holders, object building and promise conversion.
- `FinalizationRegistry` timing: a finalizer is a close or a drop at any moment.
- The first of the two calls of `Pools`, `NamespaceList` and `MetadataList`, and changes between the calls.
- The order in which `Object.entries` lists keys, and duplicate keys in what `MetadataList` returns.
- Confirmation checks, error classes, argument validation, version reporting, and the build scripts: they would only
  add easy members.
