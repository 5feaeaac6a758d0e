# Verification of pqnet's timers, queues, locks and streams

This project models the stateful core of the repository in Dafny and proves what that code is for.
Each component has an abstract description (what a caller may rely on), the code itself as classes
with loops or, for code shared between threads, as a transition system with one step per load, store
or lock section, and theorems that tie the two together over all inputs and all runs.

| component | files | main results |
|---|---|---|
| hierarchical timing wheel | `Microseconds`, `WheelGeometry`, `Schedules`, `FlatScheduler`, `AddedTimers`, `WalkEnding`, `HandleEnding`, `Links`, `WheelState`, `TimerManager` | five wheels with cascading, a hash table and a cancellation mark refine one flat set of timers; in every run each timer that is added, from outside or by a callback, and that nobody cancels, runs at exactly the milliseconds it was added for; exactly when a call of `handle` ends |
| intrusive list | `IntrusiveList` | the pointers, including the unlinking destructor, are a sequence of nodes |
| MPMC queue | `Fifo`, `Quotients`, `MpmcQueue`, `MpmcCalls`, `MpmcFailures` | successful operations linearize to a FIFO at their compare-and-swap, for any number of threads and slots; each call is answered, with its own element; slot safety; exactly when `push` and `pop` return false, and when they return at all |
| SPSC ring | `Fifo`, `SpscQueue`, `SpscCalls` | all operations, failed ones included, linearize to a FIFO of capacity N - 1; the elements popped are those the successful calls of `push` were given, in order; wait-free |
| readers-writer lock | `RWLock`, `RWLockCalls` | exclusion, writer preference, no lost wakeup, never stuck, under spurious wakeups; locking ends only with the lock |
| HTTP request | `HttpRequest` | the exact conditions under which parsing undoes printing, for headers without line breaks |
| byte buffer, connection output | `Bytes`, `Buffer`, `OutputStream`, `TcpConnection` | any list of calls on the buffer is served as by a byte queue; typed messages read back; the bytes on the wire and those waiting are the data of all calls of `send`, but for those of which the kernel took nothing at once |
| timer queue | `DeadlineQueue`, `DeadlineRuns`, `TimerQueue` | the walk over a set that callbacks change runs exactly the due timers that are not cancelled when their turn comes, once, in order; in every run an added timer runs in exactly the calls its delay and period say |
| ring buffer | `RingBuffer` | any list of plain calls is served as by a FIFO of 1024 bytes, and exactly which calls break it |
| simple timing wheel | `TimingWheel`, `TimingWheelRuns`, `TimingWheelCallbacks` | in every run a timer runs on exactly the calls its delay and period say, once on each |
| server connections | `ServerLifecycle`, `ServerLaws` | callbacks once and in order, in every run; no end of a stream is forgotten and no descriptor leaks; the pool never loses a live connection if each stream ends once, and a run that shows the bound is needed |

`dafny verify dfyconfig.toml` checks everything.

## How to read the model

Callbacks are functions (`Script`) from the callback's timer and the whole state to the calls it
makes; theorems hold for all of them, subject to a stated condition (`WellBehaved`). A method that
takes a callback performs the calls in order, on the same object, while its own loop is suspended.
Results of the kernel (lengths, errors, ends of stream, new descriptors, clock values) are
nondeterministic. `uint` arithmetic wraps at 2^32 where the source multiplies milliseconds by 1000.
Shifts and masks of unsigned numbers are divisions and remainders.

Where the code does not keep a promise for all inputs, the exact condition is proved:

* A request with a body is printed without the line break its parser waits for. So, if no header holds a
  line break, printing and parsing give a request back just when it is well-formed and its body is empty,
  or, with CRLF appended, just when it is well-formed and its body has no CRLF inside
  (`HttpRequest.ReadsBackIff`). With line breaks in a header a request that is not well-formed and has a
  body can read back (`HttpRequest.ReadsBackByChance`).
* `RingBuffer::get(0)` on a ring marked full drops its contents, and `append` of nothing where the
  indices coincide marks an empty ring full. These are the only such calls (`RingBuffer.RingBuffer.Get`,
  `RingBuffer.RingBuffer.Append`). As `strncpy` copies them, bytes are stored unchanged just when in neither
  of the two pieces anything but NULs follows a NUL (`RingBuffer.StoredExact`).
* `Buffer::makeSpace` grows once; it makes enough room just when `Fits` holds (`Buffer.Buffer.MakeSpace`).
  `readFrom` reports fewer bytes than it appended just when the buffer has grown to its limit and is
  full (`Buffer.Buffer.ReadFrom`).
* A timer that a callback adds with no delay runs at once just when another timer was still to run after
  the running one; otherwise the walk is over, and it runs when the hand is back, 256 microseconds later
  (`FlatScheduler.ZeroDelayAdd`).
* `delTimer` compares names with that of the node it was given after it may have deleted that node. The
  name can be read each time just when no later timer has the same hash (`WheelState.NameStaysReadable`);
  of two timers of one name, the second can be cancelled, but not the first (`WheelState.FirstOfTwoNames`).
* A period that is a multiple of 2^29 ms wraps to zero. When callbacks only add timers, with a delay and with
  periods that do not wrap to zero, a call of `handle` ends just when no two timers with periods that do have
  turns, up to the time of the call, that are equal or whole rounds of the hand apart (`HandleEnding.HandleEndsIff`).
  Two timers added with one delay and such a period are enough to stop the clock, whatever the callbacks
  do short of cancelling one of them (`HandleEnding.TwoVanishedPeriods`, `HandleEnding.MeetingStopsClock`). A
  single walk then ends just when at most one of its timers has such a period (`WalkEnding.WalkEndsIff`); if every
  callback adds a timer with no delay, just when it has at most one timer (`WalkEnding.EndlessAddsIff`).
* In the simple wheel, a timer whose period is no multiple of 60 ticks keeps to it exactly
  (`TimingWheelRuns.Exactness`); one whose period is such a multiple comes
  back 60 calls late just when it stands last in its list once its callback has returned
  (`TimingWheel.PeriodicMultiple`).
* `push` of the MPMC queue, running alone from any reachable state, returns just when no other thread is still
  pushing the ticket one lap before, and `pop` just when no other thread is still popping it; otherwise they
  loop (`MpmcFailures.PushReturnsIff`, `MpmcFailures.PopReturnsIff`): the queue is not lock-free. When they
  return, the state of the slot says whether they return false (`MpmcFailures.PushFrom`,
  `MpmcFailures.PopFrom`); with no other operation half done that is just when the queue is full, or empty
  (`MpmcFailures.PushAlone`, `MpmcFailures.PopAlone`). With a stale ticket they may return false on a queue
  that is neither (`MpmcFailures.PushMayFailSpuriously`, `MpmcFailures.PopMayFailSpuriously`).
* Multiplying milliseconds by 1000 is exact just up to 4294967 ms, and turns a delay into zero just for
  multiples of 2^29 ms (`Microseconds.MicrosExact`, `Microseconds.MicrosVanish`).

For the pool of connections there is a sufficient condition and a witness, not an exact condition: it is safe if
each connection reads the end of its stream at most once (`ServerLifecycle.PoolSafety`), and in one run in which
a connection reads it twice, is destroyed twice, and lets a later accept overwrite the entry of a live
connection, it is not (`ServerLifecycle.TwoEofsBreakPool`).

## Model

| member | source | states |
|---|---|---|
| WheelGeometry.SlotForPlaces | raw-examples/cpp11/timingwheel/2/timermanager.cpp:63-103 | a node is filed in the lowest wheel whose range covers its delay, in a slot whose one drain time lies ahead and not after the deadline |
| WheelGeometry.UnderHandIffDue | raw-examples/cpp11/timingwheel/2/timermanager.cpp:144-151 | when it is a wheel's turn, the slot under its hand holds exactly the deadlines to be drained now |
| WheelGeometry.DueFitsLower | raw-examples/cpp11/timingwheel/2/timermanager.cpp:149-155 | a drained node fits a strictly lower wheel |
| WheelGeometry.ChainMayStop | raw-examples/cpp11/timingwheel/2/timermanager.cpp:115-118 | when the `&&` chain stops, no higher wheel had anything to drain |
| WheelGeometry.ChainGoesOn | raw-examples/cpp11/timingwheel/2/timermanager.cpp:115-118 | index zero means it is the next wheel's turn |
| WheelGeometry.PlacementSurvivesTick | raw-examples/cpp11/timingwheel/2/timermanager.cpp:140 | what is not due stays well placed when the clock steps |
| Microseconds.MicrosExact | raw-examples/cpp11/timingwheel/2/timermanager.cpp:56 | the delay in microseconds is exact just up to 4294967 ms |
| Microseconds.MicrosVanish | raw-examples/cpp11/timingwheel/2/timermanager.cpp:129 | delays and periods vanish just for multiples of 2^29 ms |
| FlatScheduler.ActsFrame | raw-examples/cpp11/timingwheel/2/timermanager.cpp:124 | a callback leaves the clock, the log and the timers it does not cancel alone; the running timer stays first in the walk unless cancelled, and the successor fetched before comes next |
| WalkEnding.UsualCallbacks | raw-examples/cpp11/timingwheel/2/timermanager.cpp:124-127 | callbacks that add any number of timers, and then perhaps cancel their own, meet the condition of all the theorems |
| WalkEnding.DelayedWalksEnd | raw-examples/cpp11/timingwheel/2/timermanager.cpp:119-139 | callbacks that add only with a delay let every walk end in which at most one period wraps to zero |
| WalkEnding.WalkEndsIff | raw-examples/cpp11/timingwheel/2/timermanager.cpp:119-139 | if callbacks only add, and with a delay, a walk of any timers ends just when at most one of them has a period that wraps to zero |
| WalkEnding.EndlessAddsIff | raw-examples/cpp11/timingwheel/2/timermanager.cpp:119-139 | if every callback adds timers, one or more with no delay, a walk of any timers ends just when it has at most one |
| WalkEnding.ValidPeriodsKeepApart | raw-examples/cpp11/timingwheel/2/timermanager.cpp:124-131 | callbacks whose new timers have periods that do not wrap to zero bring no two that do together |
| WalkEnding.ApplyKeepsApart | raw-examples/cpp11/timingwheel/2/timermanager.cpp:111-142 | in every step of `handle`, timers whose periods wrap to zero and whose turns do not meet go on not meeting |
| HandleEnding.HandleEndsIff | raw-examples/cpp11/timingwheel/2/timermanager.cpp:111-142 | if callbacks only add, with a delay and with periods that do not wrap to zero, the clock gets past the time of the call just when no two timers whose periods do have turns up to it that are equal or whole rounds of 256 ticks apart |
| HandleEnding.MeetingStopsClock | raw-examples/cpp11/timingwheel/2/timermanager.cpp:111-142 | with any callbacks, in every run in which neither of two such timers is cancelled, the clock never gets past the later turn |
| HandleEnding.TwoVanishedPeriods | raw-examples/cpp11/timingwheel/2/timermanager.cpp:51-61 | adding two timers with one delay and a period of 2^29 ms leads there |
| FlatScheduler.ApplyKeepsInv | raw-examples/cpp11/timingwheel/2/timermanager.cpp:111-142 | no step leaves a live timer overdue: each has its turn now or later, at its endtime or, if the walk has passed it by, when the hand is back; the walk has before it just those whose turn it is |
| FlatScheduler.StaysOnSchedule | raw-examples/cpp11/timingwheel/2/timermanager.cpp:111-142 | at every point of every run an uncancelled timer has run at exactly the times of its schedule so far and stands at the next one |
| FlatScheduler.Exactness | raw-examples/cpp11/timingwheel/2/timermanager.cpp:111-142 | between ticks, an uncancelled timer has run at exactly its turn, one period later, and so on up to the clock, each once; a one-shot is gone just when its turn has passed |
| FlatScheduler.ZeroDelayAdd | raw-examples/cpp11/timingwheel/2/timermanager.cpp:119-139 | in every run, a timer that a callback adds with no delay first runs now if another timer was still to run after the running one, and otherwise 256 ticks later, and then keeps to its period |
| FlatScheduler.GoneStaysGone | raw-examples/cpp11/timingwheel/2/timermanager.cpp:105-109 | a timer that was cancelled, or has had its one run, never runs again |
| Schedules.ScheduleIs | raw-examples/cpp11/timingwheel/2/timermanager.cpp:128-129 | a schedule is the times from its start on, one period apart, up to a bound, and no others |
| AddedTimers.AddedRunsOnTime | raw-examples/cpp11/timingwheel/2/timermanager.cpp:51-61 | in every run, a timer added between calls with at most 4294967 ms as delay and period has its name and period and, if nobody cancels it, has run by any tick at exactly `1000 * ms` microseconds later and every `1000 * interval` after that |
| AddedTimers.CallbackAddRunsOnTime | raw-examples/cpp11/timingwheel/2/timermanager.cpp:111-142 | the same for a timer that a callback adds with a delay, if neither the rest of that callback nor anybody later cancels it |
| AddedTimers.CallbackEffects | raw-examples/cpp11/timingwheel/2/timermanager.cpp:105-126 | when a callback has returned, a timer is gone just when the callback has cancelled one of its name since it was there, and each addition not cancelled again has its name, period and deadline |
| AddedTimers.CancelTakesTheName | raw-examples/cpp11/timingwheel/2/timermanager.cpp:105-109 | cancelling a timer from outside takes away all timers of its name and no others |
| WheelState.HandIsDue | raw-examples/cpp11/timingwheel/2/timermanager.cpp:115-121 | after cascading, the slot that is walked holds exactly the timers whose turn is now, each once |
| WheelState.CascadeStep | raw-examples/cpp11/timingwheel/2/timermanager.cpp:149-155 | moving one node of the drained slot takes it to a strictly lower wheel and keeps all placements |
| WheelState.AllOnTime | raw-examples/cpp11/timingwheel/2/timermanager.cpp:111-142 | exactness for all timers of a run at once |
| WheelState.NextTick | raw-examples/cpp11/timingwheel/2/timermanager.cpp:140 | when the clock steps every node is still well placed, those that the walk has just passed by included |
| WheelState.NameStaysReadable | raw-examples/cpp11/timingwheel/2/timermanager.cpp:33-49 | the name that `erase` compares with is there at every comparison just when no later timer has the same hash |
| WheelState.FirstOfTwoNames | raw-examples/cpp11/timingwheel/2/timermanager.cpp:105-109 | of two timers of one name the first cannot be cancelled without reading the name of a deleted node, and the second can |
| TimerManager.TimerManager.constructor | raw-examples/cpp11/timingwheel/2/timermanager.h:76-100 | the empty manager stands for the empty set of timers |
| TimerManager.TimerManager.PushBack | raw-examples/cpp11/timingwheel/2/timermanager.cpp:27-31 | a fresh node goes to the end of the bucket of its name; every other bucket is unchanged |
| TimerManager.TimerManager.Erase | raw-examples/cpp11/timingwheel/2/timermanager.cpp:33-49 | exactly the nodes of that name go, from buckets and slots alike, whose other nodes keep their order and links; the name is read from its node at every comparison |
| TimerManager.TimerManager.UnlinkTw | raw-examples/cpp11/timingwheel/2/list.h:9-16 | deleting a node's link takes it out of its own slot and no other |
| TimerManager.TimerManager.Free | raw-examples/cpp11/timingwheel/2/timermanager.cpp:43-45 | a freed node leaves one bucket and one slot, which stay well formed |
| TimerManager.TimerManager.AddTimer | raw-examples/cpp11/timingwheel/2/timermanager.cpp:51-61 | adds one timer of that name and period to the abstract set at any moment, with its deadline that many microseconds ahead; inside a walk, one without delay comes last in it |
| TimerManager.TimerManager.AddTimerNode | raw-examples/cpp11/timingwheel/2/timermanager.cpp:63-103 | links the node at the end of the one slot its deadline belongs to |
| TimerManager.TimerManager.DelTimer | raw-examples/cpp11/timingwheel/2/timermanager.cpp:105-109 | removes all timers of that name from the abstract set and from the walk, and marks the node as cancelled |
| TimerManager.TimerManager.Call | raw-examples/cpp11/timingwheel/2/timermanager.cpp:124-126 | after any well-behaved callback `rmNode` tells whether the runner cancelled itself, and the successor fetched before is next in the list |
| TimerManager.TimerManager.Rearm | raw-examples/cpp11/timingwheel/2/timermanager.cpp:128-131 | a periodic timer moves to the slot of its next deadline, or back to the end of this one if its period wraps to zero; all invariants hold again |
| TimerManager.TimerManager.Drop | raw-examples/cpp11/timingwheel/2/timermanager.cpp:132-136 | a one-shot leaves slot, bucket and set |
| TimerManager.TimerManager.RunOne | raw-examples/cpp11/timingwheel/2/timermanager.cpp:122-138 | one round of the walk, with any period, is one firing of the flat scheduler, and leads to the successor that was fetched |
| TimerManager.TimerManager.RunHand | raw-examples/cpp11/timingwheel/2/timermanager.cpp:119-139 | the walk with its prefetched successor is a run of single firings in list order that ends, one period that wraps to zero included, with nothing due but what was passed by |
| TimerManager.TimerManager.Cascade | raw-examples/cpp11/timingwheel/2/timermanager.cpp:144-157 | the drained slot ends empty, its nodes are in strictly lower wheels, no other node has moved |
| TimerManager.TimerManager.CascadeAll | raw-examples/cpp11/timingwheel/2/timermanager.cpp:115-118 | the chain of cascades restores the full placement invariant |
| TimerManager.TimerManager.Handle | raw-examples/cpp11/timingwheel/2/timermanager.cpp:111-142 | unless two periods that wrap to zero meet by the given time, it terminates for all callbacks that let such walks end, brings the clock past that time, and is a run of the flat scheduler in which every uncancelled timer whose period does not wrap to zero is on time |
| TimerManager.TimerManager.RunAll | raw-examples/cpp11/timingwheel/2/timermanager.cpp:51-142 | every list of calls, with any delays and periods, is a run of the flat scheduler and keeps wheels and hash table in order, up to the first that cancels a timer that is gone or not readable, or that would meet two periods that wrap to zero |
| Links.LinkKeepsFamily | raw-examples/cpp11/timingwheel/2/list.h:42-54 | linking a new node at the end of one list keeps each node in exactly the list it knows |
| Links.UnlinkKeepsFamily | raw-examples/cpp11/timingwheel/2/list.h:9-16 | so does unlinking a node through its own link |
| IntrusiveList.List.constructor | raw-examples/cpp11/timingwheel/2/list.h:26-30 | two linked sentinels are the empty list |
| IntrusiveList.LinkNode.Destroy | raw-examples/cpp11/timingwheel/2/list.h:9-16 | destroying a node by its own two pointers removes just that node, and the rest stays a well-formed list |
| IntrusiveList.List.PushBack | raw-examples/cpp11/timingwheel/2/list.h:42-54 | the four pointer writes append one node |
| IntrusiveList.List.Clear | raw-examples/cpp11/timingwheel/2/list.h:31-37 | the destructor's walk destroys every node and terminates |
| IntrusiveList.List.PointersFollowNodes | raw-examples/cpp11/timingwheel/2/list.h:55-56 | `begin` and the `next` pointers enumerate the nodes in order up to the end sentinel |
| MpmcQueue.SameSlot | raw-examples/cpp11/lockFreeQueue/mpmc/lockFreeQueue.h:36-48 | tickets of one slot are ordered by round and lie whole rounds apart |
| MpmcQueue.NextKeepsInv | raw-examples/cpp11/lockFreeQueue/mpmc/lockFreeQueue.h:30-94 | every load, store and compare-and-swap of any thread, however stale its locals, keeps the ticket, thread and log invariants |
| MpmcQueue.OwnSlot | raw-examples/cpp11/lockFreeQueue/mpmc/lockFreeQueue.h:52-54 | a thread between its compare-and-swap and its counter store has the slot to itself |
| MpmcQueue.ReadSeesTruth | raw-examples/cpp11/lockFreeQueue/mpmc/lockFreeQueue.h:85-86 | a pop reads the value pushed with its ticket |
| MpmcQueue.Linearizable | raw-examples/cpp11/lockFreeQueue/mpmc/lockFreeQueue.h:30-94 | in every schedule the successful operations in the order of their compare-and-swaps are a legal FIFO history, every thread returns what it linearized in that order, and a pop returns what was pushed with its ticket |
| MpmcCalls.OnlyTestsFail | raw-examples/cpp11/lockFreeQueue/mpmc/lockFreeQueue.h:40-79 | in every state, a step makes an operation return false just when it loads a pop count below the push count loaded before, for a push, or equal to it, for a pop |
| MpmcCalls.FailedCasGoesOn | raw-examples/cpp11/lockFreeQueue/mpmc/lockFreeQueue.h:51-91 | a compare-and-swap that fails, spuriously or not, changes nothing else and leaves the thread in the same operation, with the same element and the current ticket |
| MpmcCalls.OnlyStoresReturn | raw-examples/cpp11/lockFreeQueue/mpmc/lockFreeQueue.h:52-87 | a step makes an operation return true just when it stores the counter of its slot, and moves no other thread |
| MpmcCalls.CallsAnswered | raw-examples/cpp11/lockFreeQueue/mpmc/lockFreeQueue.h:30-94 | in every schedule, each call of a thread returns before its next, true with the very element it was given, or false; at most the last call is still under way |
| MpmcQueue.SlotSafety | raw-examples/cpp11/lockFreeQueue/mpmc/lockFreeQueue.h:33-93 | in every schedule 0 <= nTail - nHead <= N, a slot's finished pops and pushes differ by at most one, and at most one thread works on a slot |
| MpmcFailures.FailedPushWithCurrentTicket | raw-examples/cpp11/lockFreeQueue/mpmc/lockFreeQueue.h:43-46 | a push that fails with an up-to-date ticket, its push count perhaps stale, found the ticket one lap before pushed and not yet popped: the queue full, or some thread still popping it |
| MpmcFailures.FailedPopWithCurrentTicket | raw-examples/cpp11/lockFreeQueue/mpmc/lockFreeQueue.h:73-79 | a pop that fails with an up-to-date ticket had loaded a push count that shows the push of that ticket unfinished |
| MpmcFailures.PushCountLoaded | raw-examples/cpp11/lockFreeQueue/mpmc/lockFreeQueue.h:73 | that load shows it unfinished just when the queue is empty or some thread is pushing with that ticket |
| MpmcFailures.AlwaysOwned | raw-examples/cpp11/lockFreeQueue/mpmc/lockFreeQueue.h:52-54 | in every schedule, a ticket that was taken and whose slot counter has not advanced is in the hands of a thread between its compare-and-swap and its store |
| MpmcFailures.FreshPushFails | raw-examples/cpp11/lockFreeQueue/mpmc/lockFreeQueue.h:40-46 | with up-to-date loads, a push returns false just when the ticket one lap before is pushed and not yet popped |
| MpmcFailures.FreshPopFails | raw-examples/cpp11/lockFreeQueue/mpmc/lockFreeQueue.h:73-79 | with up-to-date loads, a pop returns false just when the queue is empty and the slot's last pop is done, or the push of its ticket is still under way |
| MpmcFailures.PushFrom | raw-examples/cpp11/lockFreeQueue/mpmc/lockFreeQueue.h:30-61 | in every schedule, a push that runs alone, other operations being half done or not, returns false and changes nothing if the ticket one lap before is pushed and not yet popped, and appends its element if its slot is free, in six steps if its compare-and-swap does not fail spuriously |
| MpmcFailures.PopFrom | raw-examples/cpp11/lockFreeQueue/mpmc/lockFreeQueue.h:63-94 | likewise, a pop returns false and changes nothing if its slot is level, and the oldest element if that is pushed |
| MpmcFailures.PushAlone | raw-examples/cpp11/lockFreeQueue/mpmc/lockFreeQueue.h:30-61 | if no operation is half done, a push that runs alone returns false just when the queue is full, and then changes nothing; otherwise it appends its element |
| MpmcFailures.PopAlone | raw-examples/cpp11/lockFreeQueue/mpmc/lockFreeQueue.h:63-94 | likewise, a pop returns false just when the queue is empty, and otherwise returns the oldest element |
| MpmcFailures.PushReturnsIff | raw-examples/cpp11/lockFreeQueue/mpmc/lockFreeQueue.h:30-61 | in every schedule, a push that runs alone ever returns just when no other thread is still pushing the ticket one lap before |
| MpmcFailures.PopReturnsIff | raw-examples/cpp11/lockFreeQueue/mpmc/lockFreeQueue.h:63-94 | a pop just when no other thread is still popping the ticket one lap before |
| MpmcFailures.PushCanStall | raw-examples/cpp11/lockFreeQueue/mpmc/lockFreeQueue.h:52-54 | with one slot, a thread stopped after its compare-and-swap makes the push of another loop |
| MpmcFailures.PushMayFailSpuriously | raw-examples/cpp11/lockFreeQueue/mpmc/lockFreeQueue.h:43-46 | there is a schedule in which a push with a stale ticket returns false on a queue that is half full |
| MpmcFailures.PopMayFailSpuriously | raw-examples/cpp11/lockFreeQueue/mpmc/lockFreeQueue.h:76-79 | there is a schedule in which a pop with a stale ticket returns false on a queue that holds an element |
| SpscQueue.StoreTailAppends | raw-examples/cpp11/lockFreeQueue/spsc/lockFreeQueue.h:40-42 | publishing the tail index appends the element written before |
| SpscQueue.StoreHeadRemoves | raw-examples/cpp11/lockFreeQueue/spsc/lockFreeQueue.h:60-69 | publishing the head index removes the element that was read |
| SpscQueue.WriteCellIsOutside | raw-examples/cpp11/lockFreeQueue/spsc/lockFreeQueue.h:40 | the cell being written is not part of the queue |
| SpscQueue.NextKeepsInv | raw-examples/cpp11/lockFreeQueue/spsc/lockFreeQueue.h:22-72 | every step of either thread keeps the ring well formed and the history legal |
| Fifo.LegalIsFifo | raw-examples/cpp11/lockFreeQueue/spsc/lockFreeQueue.h:8-19 | a legal history loses, repeats and reorders nothing and stays within the capacity |
| SpscQueue.Linearizable | raw-examples/cpp11/lockFreeQueue/spsc/lockFreeQueue.h:22-72 | in every interleaving all operations, failed ones included, form a legal history of a FIFO of capacity N - 1 |
| SpscCalls.PushesAnswered | raw-examples/cpp11/lockFreeQueue/spsc/lockFreeQueue.h:22-45 | in every interleaving, the i-th event of the producer is that the element of the i-th call of `push` was pushed, or that the ring was full; only the last call may have no event yet |
| SpscCalls.PopsAnswered | raw-examples/cpp11/lockFreeQueue/spsc/lockFreeQueue.h:49-72 | each call of `pop` has one event, except that the last may have none yet |
| SpscCalls.CallsInOrder | raw-examples/cpp11/lockFreeQueue/spsc/lockFreeQueue.h:22-72 | in every interleaving, the elements popped and then those in the ring are the elements given to the calls of `push` that returned true, in order |
| SpscCalls.WaitFree | raw-examples/cpp11/lockFreeQueue/spsc/lockFreeQueue.h:22-72 | whatever the other thread does, each operation returns after at most four steps of its own |
| RWLock.NextKeepsInv | raw-examples/cpp11/rwlock/rwlock.h:17-46 | every locked section, wait, wakeup and spurious wakeup keeps: counters count, exclusion, and sleepers have someone to wake them |
| RWLock.AlwaysInv | raw-examples/cpp11/rwlock/rwlock.h:17-46 | and so it is in every reachable state; wcnt is the number of waiting and holding writers |
| RWLock.Exclusion | raw-examples/cpp11/rwlock/rwlock.h:17-46 | in every schedule, never two writers, never a reader beside a writer |
| RWLock.WriterPreference | raw-examples/cpp11/rwlock/rwlock.h:17-21 | in every schedule, a reader gets the lock only when no writer waits for it or holds it |
| RWLock.NoLostWakeup | raw-examples/cpp11/rwlock/rwlock.h:22-46 | in every schedule, while a thread sleeps some thread holds the lock or some writer has been woken, and a writer is announced |
| RWLock.NeverStuck | raw-examples/cpp11/rwlock/rwlock.h:17-46 | in every schedule, if nobody holds the lock and the mutex is free, some waiting thread gets the lock in two steps of its own |
| RWLockCalls.CallsEndWell | raw-examples/cpp11/rwlock/rwlock.h:17-46 | in every schedule, a thread inside `rdLock` or `wrLock` stays there or gets that lock, a holder keeps it until it unlocks, and only unlocking ends without a lock |
| RWLockCalls.ReaderTests | raw-examples/cpp11/rwlock/rwlock.h:19-20 | a reader that tests gets the lock just when no writer is announced, and sleeps otherwise |
| RWLockCalls.WriterTests | raw-examples/cpp11/rwlock/rwlock.h:34-36 | a writer that tests gets the lock just when there is no reader and no other writer, and sleeps otherwise |
| RWLockCalls.OtherStep | raw-examples/cpp11/rwlock/rwlock.h:22-46 | a step moves another thread just by waking it: all sleeping readers by the last writer, one sleeping writer by the last reader or a writer that is not the last |
| HttpRequest.PutIsUpdate | pqnet/core/http/request.h:22-24 | `headers[key] = value` keeps the order of keys and changes that key only |
| HttpRequest.RequestLineReadsBack | pqnet/core/http/request.cpp:61-68 | parsing a printed request line gives back method, target and version |
| HttpRequest.HeadersReadBack | pqnet/core/http/request.cpp:9-43 | a printed block of headers is read back whole and leaves the scan at the body |
| HttpRequest.HeadReadsBack | pqnet/core/http/request.cpp:6-59 | the head of any printed well-formed request reads back, whatever follows it |
| HttpRequest.RoundTrip | pqnet/core/http/request.cpp:6-59 | parsing a printed request gives it back just when its body is empty |
| HttpRequest.RoundTripWithCrlf | pqnet/core/http/request.cpp:6-59 | with CRLF appended, it does just when the body has no CRLF inside |
| HttpRequest.ParsedFields | pqnet/core/http/request.cpp:6-68 | whatever is parsed, the request line fields hold no line break, method and target no space, keys no colon, and the headers are sorted |
| HttpRequest.ReadsBackIff | pqnet/core/http/request.cpp:6-59 | a request without line breaks in its headers reads back just when it is well-formed and its body is empty; with CRLF appended, just when it is well-formed and its body has no CRLF inside |
| HttpRequest.ReadsBackByChance | pqnet/core/http/request.cpp:22-38 | a request with line breaks in a header, and with a body, that reads back all the same |
| HttpRequest.PrintedForm | pqnet/core/http/request.cpp:46-59 | a printed request is the request line with single spaces, one line `key: value` for each header in order, an empty line, each ended by CRLF, and the body |
| HttpRequest.BodyIsLastLine | pqnet/core/http/request.cpp:23-39 | of a body of several lines the parser keeps the last one ended by a line break |
| HttpRequest.ShortRequestLine | pqnet/core/http/request.cpp:61-68 | in a request line with no or one space, what is missing becomes the whole line |
| HttpRequest.HeaderLineCases | pqnet/core/http/request.cpp:19-22 | a header goes from the begin of its line to the first colon, on that line or a later one; its value starts two characters behind and ends with the line, or with the request if the line ends before; the parser throws just when the colon is the last character of all |
| HttpRequest.HeaderWithoutColon | pqnet/core/http/request.cpp:19-22 | without a colon behind it, a header line becomes a header of the whole rest, whose value starts at the second character of the request |
| HttpRequest.HttpRequest.ParseRequestLine | pqnet/core/http/request.cpp:61-68 | the method computes the specified split, and throws just when that has an out-of-range substring |
| HttpRequest.HttpRequest.AddHeader | pqnet/core/http/request.h:22-24 | sets one header, keeping the map sorted |
| HttpRequest.HttpRequest.FromString | pqnet/core/http/request.cpp:6-44 | the scanning loop computes the specified parse, throws just when it is undefined, and terminates |
| HttpRequest.HttpRequest.GetRequest | pqnet/core/http/request.cpp:46-59 | the appending loop prints request line, headers in order and body |
| Buffer.Buffer.constructor | pqnet/core/buffer.cpp:10-13 | an empty queue of the given capacity |
| Buffer.Buffer.DoubleSize | pqnet/core/buffer.cpp:15-24 | keeps the contents; doubles just below the limit |
| Buffer.Buffer.Vacate | pqnet/core/buffer.cpp:26-32 | moves the contents to the front, overlapping or not, unchanged |
| Buffer.Buffer.MakeSpace | pqnet/core/buffer.cpp:34-41 | keeps the contents; makes enough room just when `Fits` says so |
| Buffer.Buffer.WriteTo | pqnet/core/buffer.cpp:44-60 | what the kernel takes is a prefix of the contents, and leaves the rest |
| Buffer.Buffer.Get | pqnet/core/buffer.cpp:62-74 | takes the first bytes, all of them if there are fewer |
| Buffer.Buffer.Append | pqnet/core/buffer.cpp:143-150 | appends, and never lets the capacity reach twice the limit |
| Buffer.Buffer.AppendInt | pqnet/core/buffer.cpp:152-194 | appends the bytes of an integer of any width |
| Buffer.Buffer.GetInt | pqnet/core/buffer.cpp:76-114 | takes an integer just when enough bytes are there, else nothing |
| Buffer.Buffer.ReadFrom | pqnet/core/buffer.cpp:117-141 | the recursion terminates; exactly the bytes read are appended, in order; the capacity stays below twice the limit; the result reports all of them just when room is left; it goes on reading until the kernel gives nothing, leaves room, or the limit is reached |
| Buffer.Buffer.RunAll | pqnet/core/buffer.cpp:62-194 | any list of appends and gets of bytes and integers on one buffer is served as by a queue of bytes, up to the first append for which there is no room; there is room for all if together they fit into the capacity |
| Buffer.BytesInOrder | pqnet/core/buffer.cpp:62-194 | in every such run, the bytes taken followed by those left are those there before followed by all that was added |
| Buffer.TypedCalls | pqnet/core/buffer.cpp:76-194 | on one empty buffer, any list of typed appends and then gets of the same widths gives the values back and leaves it empty |
| Buffer.IntRoundTrip | pqnet/core/buffer.cpp:76-194 | an integer read with the width it was written with comes back, signs included |
| Buffer.EncodedByte | pqnet/core/buffer.cpp:152-194 | the byte at index i of an integer is its digit of 256 to the power of i, in two's complement |
| Buffer.TypedRoundTrip | pqnet/core/buffer.cpp:76-194 | any sequence of typed appends reads back with the same widths and leaves what follows |
| OutputStream.StepKeepsSound | pqnet/core/connection.cpp:46-118 | no event breaks the stream or the write interest, or takes back bytes on the wire |
| OutputStream.StreamIntegrity | pqnet/core/connection.cpp:46-118 | in every run, bytes on the wire followed by those waiting are the accepted sends in order; write interest is on just while something waits; the stream is shut down only when nothing waits |
| OutputStream.SentInOrder | pqnet/core/connection.cpp:46-72 | in every run, bytes on the wire followed by those waiting are the data of all calls of `send` in order, except of those made when nothing was waiting and of which the kernel took nothing |
| OutputStream.KernelTakes | pqnet/core/connection.cpp:46-118 | at each event the kernel takes a prefix of what waits with the new data behind it; nothing else leaves |
| OutputStream.CompletedAndClosed | pqnet/core/connection.cpp:46-118 | in every run, the write-completed callback has run once for each event after which nothing was left to write, and the stream is shut down just when that was asked while nothing waited |
| TcpConnection.Trigger.LikeWriting | pqnet/core/trigger.h:26-31 | turns write interest on and leaves read interest |
| TcpConnection.Trigger.OmitWriting | pqnet/core/trigger.h:26-31 | turns write interest off and leaves read interest |
| TcpConnection.TcpConnection.Send | pqnet/core/connection.cpp:46-72 | is the abstract send, whatever the kernel takes, and asks the kernel to write all the data just when nothing is waiting |
| TcpConnection.TcpConnection.HandleWrite | pqnet/core/connection.cpp:105-118 | is the abstract write event, and asks the kernel to write all that waits |
| TcpConnection.TcpConnection.ShutdownInLoop | pqnet/core/connection.cpp:81-86 | shuts down just when write interest is off |
| TcpConnection.TcpConnection.RunAll | pqnet/core/connection.cpp:46-118 | any calls in a row are a run of the abstract stream, up to the first send there is no room for |
| DeadlineQueue.InsertIsAdd | pqnet/core/timerqueue.cpp:11-14 | inserting keeps the set in order of deadline and id |
| DeadlineQueue.EraseIsRemove | pqnet/core/timerqueue.cpp:19-28 | erasing takes out the timer of that id and no other |
| DeadlineQueue.UsualCallbacks | pqnet/core/timerqueue.cpp:39 | callbacks that do nothing, add one timer at a clock value not before that of the call they run in, or cancel any one timer, meet the condition of the theorems |
| DeadlineQueue.ActsFrame | pqnet/core/timerqueue.cpp:39 | a callback cancels just what it names, and what it adds is not due in this call |
| DeadlineQueue.FireKeeps | pqnet/core/timerqueue.cpp:36-54 | running the first due timer leaves fewer due, every other timer, and its re-armed self |
| DeadlineQueue.DrainRunsDue | pqnet/core/timerqueue.cpp:31-59 | of the timers that are due, a call runs exactly those that are not cancelled in the state in which their turn comes, each once, in order of deadline and id |
| DeadlineQueue.DrainLeavesRest | pqnet/core/timerqueue.cpp:31-59 | it leaves nothing due, all timers not due, and every periodic one it ran re-armed for the call's clock value plus its period, unless cancelled; nothing else but new timers |
| DeadlineQueue.CancelledIsGone | pqnet/core/timerqueue.cpp:17-29 | a timer that `delTimer` was called for is not in the set any more |
| DeadlineQueue.GoneStaysGone | pqnet/core/timerqueue.cpp:6-59 | in every run of calls, each with its own clock value, a timer that was cancelled, or has had its one run, never runs again |
| DeadlineRuns.AddsOneEntry | pqnet/core/timerqueue.cpp:6-15 | `addTimer` adds one entry, due `1000 * ms` microseconds after the clock value, or 100 for none, of the given period |
| DeadlineRuns.CallbackAdds | pqnet/core/timerqueue.cpp:39 | an entry that a callback adds is in the set afterwards just when the callback has not cancelled it again |
| DeadlineRuns.CallbackAddsOnly | pqnet/core/timerqueue.cpp:39 | and what is new in the set is what it added |
| DeadlineRuns.Exactness | pqnet/core/timerqueue.cpp:31-59 | in every run of calls and callbacks, a timer that nobody cancels runs in the first call at or after its deadline, and, if periodic, again in the first call a period after the clock value of that one, and so on, once in each and in no other |
| DeadlineRuns.AddedRunsOnTime | pqnet/core/timerqueue.cpp:6-59 | in every run from the empty set on, that holds for the deadline and period in milliseconds a timer was added with |
| TimerQueue.CursorMoves | pqnet/core/timerqueue.cpp:37-54 | the iterator fetched before the callback is still the next one to visit after the set has changed |
| TimerQueue.TimerQueue.AddTimer | pqnet/core/timerqueue.cpp:6-15 | adds one timer in order |
| TimerQueue.TimerQueue.DelTimer | pqnet/core/timerqueue.cpp:17-29 | the search loop removes the timer of that id, and marks it just when it is the first |
| TimerQueue.TimerQueue.Call | pqnet/core/timerqueue.cpp:38-41 | after the callback the mark tells whether the runner cancelled itself, and otherwise it is still first |
| TimerQueue.TimerQueue.Settle | pqnet/core/timerqueue.cpp:46-54 | of the set only the runner is gone; a periodic one is back with its next deadline; from the returned iterator the walk still comes to everything that is due |
| TimerQueue.TimerQueue.RunFirst | pqnet/core/timerqueue.cpp:36-54 | one round of the walk fires the first timer and fewer are due afterwards |
| TimerQueue.TimerQueue.Handle | pqnet/core/timerqueue.cpp:31-59 | the walk over the changing set terminates and does what draining from the front would do |
| TimerQueue.TimerQueue.RunAll | pqnet/core/timerqueue.cpp:6-59 | every run of calls, whose callbacks add at clock values of the call they run in or later, is a run of the specification |
| Bytes.TruncatedExact | raw-examples/cpp11/ringbuffer/ringbuffer.h:85-97 | `strncpy` keeps data just when only NULs follow a NUL |
| RingBuffer.RingBuffer.constructor | raw-examples/cpp11/ringbuffer/ringbuffer.h:11 | an empty ring |
| RingBuffer.RingBuffer.ReadableBytes | raw-examples/cpp11/ringbuffer/ringbuffer.h:22-30 | the number of stored bytes |
| RingBuffer.RingBuffer.WritableBytes | raw-examples/cpp11/ringbuffer/ringbuffer.h:31-39 | with the stored bytes it makes up SIZE |
| RingBuffer.RingBuffer.Get | raw-examples/cpp11/ringbuffer/ringbuffer.h:41-72 | takes the oldest bytes or none; wrong just for taking nothing from a ring marked full |
| RingBuffer.RingBuffer.Append | raw-examples/cpp11/ringbuffer/ringbuffer.h:79-108 | appends or refuses by room; wrong just for appending nothing to an empty ring |
| RingBuffer.RingBuffer.RunAll | raw-examples/cpp11/ringbuffer/ringbuffer.h:41-108 | any list of appends of something without NULs and gets of something is served as by a queue of at most SIZE bytes, each call whole or not at all |
| RingBuffer.BytesInOrder | raw-examples/cpp11/ringbuffer/ringbuffer.h:41-108 | in every such run, the bytes taken followed by those left are those there before followed by those kept, never more than SIZE |
| RingBuffer.StoredExact | raw-examples/cpp11/ringbuffer/ringbuffer.h:84-98 | data is stored unchanged just when in neither of its pieces anything but NULs follows a NUL |
| RingBuffer.NulFreeStored | raw-examples/cpp11/ringbuffer/ringbuffer.h:84-98 | data without NULs is stored as it is, in one piece or two |
| TimingWheel.ArmedRemaining | raw-examples/cpp11/timingwheel/1/timingwheel.cpp:12-16 | a timer set some ticks ahead has as many calls to go |
| TimingWheel.DueIffNothingRemains | raw-examples/cpp11/timingwheel/1/timingwheel.cpp:39-44 | nothing remains just under the hand with no rounds left |
| TimingWheel.WalkRunsDue | raw-examples/cpp11/timingwheel/1/timingwheel.cpp:37-70 | a call runs the due timers of the slot, each once in list order; those that wait keep their order, one round nearer; other slots only grow |
| TimingWheel.OneCall | raw-examples/cpp11/timingwheel/1/timingwheel.cpp:37-72 | a waiting timer, wherever it is, comes exactly one call nearer |
| TimingWheelRuns.AlwaysDistinct | raw-examples/cpp11/timingwheel/1/timingwheel.cpp:9-72 | in every run no two entries of the wheel have the same id |
| TimingWheelRuns.Exactness | raw-examples/cpp11/timingwheel/1/timingwheel.cpp:37-72 | in every run of calls and callbacks, a timer with n calls to go, a one-shot or with a period that is no multiple of 60 ticks, runs on calls n, n + period and so on, once on each and on no other |
| TimingWheelRuns.ReachableExactness | raw-examples/cpp11/timingwheel/1/timingwheel.cpp:37-72 | and that is so for every timer of every reachable state |
| TimingWheelRuns.AddedExactly | raw-examples/cpp11/timingwheel/1/timingwheel.cpp:9-20 | a timer added between calls runs on the call of its number of ticks, and then keeps to its period |
| TimingWheelRuns.CallsAreLogged | raw-examples/cpp11/timingwheel/1/timingwheel.cpp:47 | these are all its runs in the log |
| TimingWheelRuns.GoneStaysGone | raw-examples/cpp11/timingwheel/1/timingwheel.cpp:66-68 | a timer that is in no slot never runs again |
| TimingWheel.PeriodicMultiple | raw-examples/cpp11/timingwheel/1/timingwheel.cpp:54-65 | with a multiple of 60 ticks it is 60 calls late just when it is last in its list |
| TimingWheel.TimingWheel.AddTimer | raw-examples/cpp11/timingwheel/1/timingwheel.cpp:9-20 | appends to the slot of its ticks |
| TimingWheel.TimingWheel.Resettle | raw-examples/cpp11/timingwheel/1/timingwheel.cpp:54-68 | splices or erases the runner, and says where the walk goes on |
| TimingWheel.TimingWheel.Handle | raw-examples/cpp11/timingwheel/1/timingwheel.cpp:37-72 | the loop terminates and is the specified walk |
| TimingWheelRuns.RunAll | raw-examples/cpp11/timingwheel/1/timingwheel.cpp:9-72 | every run of calls on the object is a run of the specification |
| TimingWheelCallbacks.TicksExact | raw-examples/cpp11/timingwheel/1/timingwheel.cpp:12 | a delay or period counts as many whole ticks as fit, but at least one |
| TimingWheelCallbacks.CallbackAddedExactly | raw-examples/cpp11/timingwheel/1/timingwheel.cpp:37-72 | a timer that a callback adds, anywhere in a walk, runs on the call of its number of ticks from the one under way, and then keeps to its period |
| ServerLifecycle.NextKeepsInv | pqnet/core/server.cpp:32-134 | every step of every loop keeps each connection's life in order |
| ServerLifecycle.AlwaysInv | pqnet/core/eventloop.cpp:95-116 | and so in every run, functors being run in batches in the order they were pushed |
| ServerLifecycle.Callbacks | pqnet/core/connection.cpp:22-44 | in every run, a connection's connect callback runs at most once, its close callback at most once and after it, and no handler runs before it is established or once it is destroyed |
| ServerLaws.ConnStep | pqnet/core/connection.cpp:22-44 | what each step does to a connection: the end of its stream, its establishing and its destruction change it as they should, nothing else does |
| ServerLaws.QueueStep | pqnet/core/server.cpp:92-134 | each step pushes just the functors it must to the loop it must; loops run them in the order pushed, each once |
| ServerLaws.LoopStep | pqnet/core/eventloop.cpp:44-107 | a loop alternates between events and batches of functors, and ends after the batch in which it was told to quit |
| ServerLaws.AlwaysInTurn | pqnet/core/server.cpp:92-107 | in every run, connections go to the followers in turn; the close callback has run, once, just when a connection has seen the end of its stream or been destroyed; no descriptor stays open once no living connection has it |
| ServerLaws.NoneForgotten | pqnet/core/server.cpp:123-134 | in every run, however often peers close, each end of stream, and each visit of the destructor, is still to be removed from the pool, still to be destroyed, or has destroyed its connection, and nothing else destroys one |
| ServerLaws.QuitAfterVisits | pqnet/core/server.cpp:32-43 | the followers are told to quit only when each connection that was in the pool as the server ended has been sent its destruction |
| ServerLifecycle.OwnAccept | pqnet/core/server.cpp:92-107 | accepting a descriptor that is not open overwrites no pool entry |
| ServerLifecycle.OwnRemove | pqnet/core/server.cpp:128-134 | erasing by descriptor erases the entry of that very connection |
| ServerLifecycle.OwnPopDestroyed | pqnet/core/connection.cpp:33-44 | destroying a connection closes its own descriptor, once, and no other connection's |
| ServerLifecycle.AlwaysOwned | pqnet/core/server.cpp:32-134 | ownership of descriptors and pool entries holds in every run with one end of stream for each connection |
| ServerLifecycle.PoolSafety | pqnet/core/server.cpp:85-134 | in such runs no accept overwrites an entry, entries own their descriptors, and live connections have distinct open ones |
| ServerLifecycle.TwoEofsBreakPool | pqnet/core/connection.cpp:120-130 | a run in which one connection reads the end twice and an accept would overwrite a live entry |

## Left out

- TimerManager.TimerManager.Handle: callbacks do not call `handle`, and do nothing that makes the code touch a freed node: they cancel only timers that exist and whose name stays readable, no bearer of the name of the successor already fetched, and their own timer by its own id and last. Periods that wrap to zero do not meet by the time of the call, and callbacks let the other walks end, since otherwise the call need not end.
- TimerManager.TimerManager.RunAll: stops at the first call that its caller must not make, instead of saying what the code does there.
- TimerManager.TimerManager.DelTimer: only a timer that still exists, and whose name stays readable, can be cancelled; what the code does otherwise is undefined.
- Width of `long`: 64 bits, so the branch at timermanager.cpp:94 is never taken; the clock and the counters do not wrap at 2^64.
- Slots and buckets are sequences of node identities in `TimerManager`; the pointers are proved separately in `IntrusiveList`, on one list at a time. Identities are never reused.
- Memory orderings of the lock-free queues: loads and stores are sequentially consistent; counters do not wrap.
- MpmcQueue.Linearizable: failed operations are not linearized, because a stale ticket can make them fail on a queue that is neither full nor empty; when they fail is stated in `MpmcFailures`.
- RWLock.NextKeepsInv: a section under the mutex is one step; callers unlock only what they have locked. The guard classes are left out.
- HttpRequest.RoundTrip: for well-formed requests; `HttpRequest.ReadsBackIff` covers all without line breaks in their headers, and for others there is an example only. The HTTP response and router are left out.
- Buffer.Buffer.Append: requires room after one growth, as the code copies regardless; capacity is taken to equal size.
- Buffer.Buffer.GetInt: returns 0 where the code returns an uninitialised value.
- Buffer.Buffer.AppendInt: one method for all widths, lowest byte first.
- TcpConnection.TcpConnection.Send: data of a failed direct write is dropped by the code and does not count as accepted; the write-completed callback is a counter, since a send from inside it starts when nothing is left of the outer one.
- TimerQueue.TimerQueue.Handle: ids are distinct and never reused, although they are addresses of temporaries; a callback reads no clock value before that of its call; delays and periods do not wrap to zero; a callback that cancels its own timer cancels neither the successor already fetched nor, afterwards, the timer that is then first.
- `TimerQueue::getExpire` and the event loop's waiting: single expressions.
- RingBuffer integers (`getIntN`, `appendIntN`): a straddling read does not undo the append.
- TimingWheel.TimingWheel.Handle: callbacks of the simple wheel only add timers; `delTimer` is left out, its ids being addresses of temporaries.
- ServerLifecycle.NextKeepsInv: what user callbacks do to the connection, other signals and timers of the loops; `epoll_wait` failing is a step that ends a loop.
- Sockets, epoll, threads, logging, thread pools and the remaining examples: calls to the system, or simple.
