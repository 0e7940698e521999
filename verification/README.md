# Verification of the NanoHat OLED controller

A Dafny model of the two generations of the event-driven controller for a three-button OLED, and proofs
about it. `dafny verify dfyconfig.toml` checks everything.

## What is modelled

| Files | Part of the program |
|---|---|
| `RingQueue.dfy` | the mutex-protected ring buffer of ADR0005, its three overflow policies, in-place merge and replacement |
| `EventQueue.dfy`, `EventWait.dfy` | the event queue on top of it, and its wait protocol (sequence number, condition variable) under any interleaving of producers, closers and the consumer |
| `TaskQueue.dfy`, `ResultQueue.dfy`, `UbusWorker.dfy` | the two ubus queues and the worker thread between them |
| `TickHandoff.dfy` | the hand-off of the timer period from the UI thread to the event loop, the loop's control handling, the UI thread's tick state |
| `UbusTable.dfy`, `UbusClient.dfy` | the ADR0006 request table with its three competing completion paths, and the per-service query state of `sys_status` that it calls back into |
| `ServicesPage.dfy`, `PageController.dfy` | the Services page, the page controller and the UI controller as one product state |
| `GpioLines.dfy`, `GpioHal.dfy` | debounce, short and long press on three lines, the shared one-shot timer, the pending ring |
| `Words.dfy` | machine words, `Option`, sequence facts |

Each part has a specification on values, whose modules end in `Spec` or bear the plural of what they hold
(`RingSpec`, `Events`, `Tasks`, `Results`, `GpioSpec`, ...), and a class with the fields of the C program whose
methods are proved to do what the specification says. Properties are lemmas about the specification. Threads
are state machines whose steps are single lock regions, atomic accesses or calls; a run is any sequence of
enabled steps. Ghost fields (`ledger`, `log`, `attempts`, `hooks`, `controls`, `seen`, ...) record the past.

Where code and documentation differ, the model follows the code:

- `src/hal/gpio_hal.h:17-18` says that a short press was released before 600 ms and a long one held for them.
  The code goes by which of the edge and the timer check it sees first. `LengthToldIff` says exactly when the two
  agree, `LengthCanBeMistold` gives presses for which they do not.
- The long-press timer is meant to wait for the nearest deadline. In `src/hal/gpio_hal_libgpiod.c:126` a remaining
  time of 0 is also the mark for "no line yet", so a later line can hide an overdue one. `DelayIsMinimumIff` says
  exactly when, `DelayCanHideAnOverdueLine` gives an example.
- `src_adr0005/ui_thread.c` casts the merged tick count to int and subtracts it. `DifferenceFitsIff` says exactly
  for which counts the difference is an int, `CountdownFallsIff` when the countdown then falls, and
  `CountdownCanOverflow` gives a count for which it is none.
- The back-off of `src/hal/ubus_hal_real.c:253-257` is a shift of an int. `DelayDefinedIff` says exactly for which
  numbers of failures it is defined, `NoDelayAfter32` gives the first for which it is not. Each refused connection
  adds one failure, so enough of them reach it.
- The exactly-once promise of `src/hal/ubus_hal.h:77-82` has one exception in the code: `real_cleanup` empties the
  table and calls no one.

Assumptions:

- libubus: an abort may synchronously call the completion callback of the aborted request and of no other; a lookup
  may process replies and completions of any other requests before it returns; callbacks issue no requests, as
  `src/hal/ubus_hal.h:31-36` demands of them. Anything else that libubus, `malloc` or the clock may answer is left
  open (`*`).
- Atomics are sequentially consistent; `pthread_cond_wait` releases and takes the lock atomically; spurious wake-ups
  are allowed; an eventfd write does not block; reading it returns the whole count; `timerfd_settime` succeeds.
- A timer fires or a request completes at any moment, also for slots that no longer wait for it.
- At most 16 edges come with one read of the chip, which is the size of the buffer the program passes.
- Where C leaves the subtraction of ints undefined it wraps here; where it leaves the shift undefined any delay is
  possible.
- 64-bit counters and deadlines do not wrap; 64-bit differences do, and are modelled so. Counts that the program
  merges in 32 bits are 32 bits here.
- Names are strings without NUL. Monitored service names are distinct and shorter than 32 characters.
- The page table has at least two pages.

## Model

| member | source | states |
|---|---|---|
| `RingSpec.PushMeaning` | src_adr0005/ring_queue.c:89-123 | What a push does, from the old contents alone: it merges into the first element that accepts the item exactly when the policy allows merging and some element accepts it; it appends when there is room; a full ring drops its oldest and appends, or rejects and stays as it was, by policy. |
| `RingSpec.RunKeepsAccounts` | src_adr0005/ring_queue.c:72-167 | Over any sequence of pushes, pops, replacements and policy changes, pushes = pops + overwrites + drops + merges + count, and count stays within capacity. |
| `RingSpec.RejectIsFifo` | src_adr0005/ring_queue.c:89-142 | A rejecting ring is a FIFO over any run: what was delivered, then what is queued, is what was queued before, then what was accepted. |
| `RingSpec.OverwriteKeepsNewest` | src_adr0005/ring_queue.c:104-113 | An overwriting ring always holds a suffix of everything queued or pushed. |
| `RingSpec.OverwriteAcceptsAll` | src_adr0005/ring_queue.c:104-113 | An overwriting ring accepts every push of a run. |
| `RingQueue.WrapIsModulo` | src_adr0005/ring_queue.c:72-123 | Stepping an index round the buffer by one conditional subtraction is the modulo the code writes. |
| `RingQueue.RingQueue.constructor` | src_adr0005/ring_queue.c:18-34 | A new ring over a real buffer is empty, overwrites the oldest, and has all counters at zero. |
| `RingQueue.RingQueue.SetOverflowPolicy` | src_adr0005/ring_queue.c:53-60 | Only the policy changes. |
| `RingQueue.RingQueue.TryMerge` | src_adr0005/ring_queue.c:72-87 | The scan over the live elements merges in place into the first that accepts the item and leaves all others alone; otherwise nothing changes. |
| `RingQueue.RingQueue.Push` | src_adr0005/ring_queue.c:89-123 | The buffer, head, tail, count and counters after a push stand for the abstract push of the same item, under all three policies. |
| `RingQueue.RingQueue.Pop` | src_adr0005/ring_queue.c:125-142 | The oldest element comes out and the rest keep their order; an empty ring does not change. |
| `RingQueue.RingQueue.ReplaceFirstIf` | src_adr0005/ring_queue.c:144-167 | Exactly the first matching element in FIFO order is overwritten; counters, order and all other elements stay. |
| `Events.MergeTarget` | src_adr0005/event_queue.c:17-30 | A tick is merged into the first queued tick; a critical event is merged into nothing. |
| `Events.OfferConserves` | src_adr0005/event_queue.c:92-101 | The first lock region of a push keeps conservation and the single queued tick, and refuses a critical event exactly when the ring is full. |
| `Events.DisplaceConserves` | src_adr0005/event_queue.c:102-119 | The second lock region keeps conservation and succeeds exactly when a tick is queued. |
| `Events.TakeConserves` | src_adr0005/event_queue.c:121-126 | A pop keeps conservation: what leaves the queue is delivered. |
| `Events.RefusedIffFullOfCritical` | src_adr0005/event_queue.c:92-119 | Without interference a push is dropped exactly when every slot holds a critical event. |
| `Events.PushEventMeaning` | src_adr0005/event_queue.c:92-119 | What an uninterrupted push does and answers, case by case from the old queue: a tick joins the queued tick (counts added modulo 2^32, newer time); else the event is appended if there is room; in a full queue a tick is dropped, another event takes the queued tick's place with REPLACED or is dropped; the two counters follow. |
| `EventQueue.EventQueue.Push` | src_adr0005/event_queue.c:92-119 | The push of the real queue keeps conservation, has the outcome of the two abstract lock regions, and signals exactly when the queue changed. |
| `EventQueue.EventQueue.TryPop` | src_adr0005/event_queue.c:121-126 | The pop of the real queue is the abstract one. |
| `EventQueue.EventQueue.Close` | src_adr0005/event_queue.c:84-90 | Closing sets the flag, signals once, and loses no event. |
| `EventWait.ThreadPromises` | src_adr0005/event_queue.c:32-37 | What one step of a producer or closer can do to the facts a waiting consumer depends on: new work always comes with a thread that still has to increment the sequence number. |
| `EventWait.LockSteps` | src_adr0005/event_queue.c:128-200 | Every step keeps the condition-variable lock held by the thread that stands in its critical section, and by no other. |
| `EventWait.StepKeepsInv` | src_adr0005/event_queue.c:32-200 | Every single step of any thread keeps the protocol invariant: event conservation, lock ownership, the promise the consumer's snapshot makes at each point of the wait, and that only a wait whose deadline has passed finds itself timed out. |
| `EventWait.RunKeepsInv` | src_adr0005/event_queue.c:32-200 | So does every interleaving of any number of steps. |
| `EventWait.NoLostWakeup` | src_adr0005/event_queue.c:128-200 | In every interleaving, if the consumer sleeps while an event is queued or the queue is closed, some thread stands between its publication and its signal. |
| `EventWait.WaitEnds` | src_adr0005/event_queue.c:128-200 | How a wait ends, in every run: it hands over and removes the oldest queued event; or it takes nothing, and then the queue is closed, the timeout was zero, or a positive timeout ran out during this very call. A wait without timeout never ends otherwise. |
| `EventWait.ConsumerStepEnds` | src_adr0005/event_queue.c:158-200 | A step inside a wait that does not end it takes no event. |
| `EventWait.WaitReturns` | src_adr0005/event_queue.c:158-200 | With every producer at rest and an event queued or the queue closed, the consumer is not asleep and at most ten steps of its own end its wait. |
| `EventWait.SleeperCanBeWoken` | src_adr0005/event_queue.c:32-37 | From every such state at most four steps of producers alone, none of which waits for the consumer, wake it. |
| `EventWait.NothingLost` | src_adr0005/event_queue.c:92-126 | In every interleaving of the two-step push with pops: the critical events answered OK or REPLACED are, as a multiset, those delivered plus those queued; at most one tick is queued; tick data balances modulo 2^32. |
| `Tasks.ExpiredMeansLate` | src_adr0005/task_queue.c:204-209 | With a clock not behind the enqueue time, a task is expired exactly when it has a timeout and is older than it. |
| `Tasks.PushKeepsIntent` | src_adr0005/task_queue.c:84-110 | A push keeps the queue equal to the outstanding intents, one per (service, action); it is dropped exactly when the queue is full of other keys, merged exactly when its key is queued, and otherwise its request is the queued one. |
| `Tasks.PopKeepsIntent` | src_adr0005/task_queue.c:112-124 | A pop keeps that too, and hands out the latest intent of its key. |
| `Tasks.RunKeepsIntent` | src_adr0005/task_queue.c:84-124 | So does any run of pushes and pops. |
| `Tasks.RequestIsNotLost` | src_adr0005/task_queue.c:84-124 | In every run, every accepted request is still queued as sent, was superseded by a later accepted push with its key, or was popped as sent. |
| `TaskQueue.TaskQueue.Push` | src_adr0005/task_queue.c:84-110 | The push of the real queue is the abstract one, with its counters and signal. |
| `TaskQueue.TaskQueue.TryPop` | src_adr0005/task_queue.c:112-124 | The pop of the real queue is the abstract one, with its counters. |
| `Results.PushAccounts` | src_adr0005/result_queue.c:85-131 | A listed request id never enters the ring; an unlisted one is refused exactly when the ring is full of unlisted ids; no unlisted queued result is lost; attempts = pops + count + drops + drops_abandoned. |
| `Results.PushStepAccounts` | src_adr0005/result_queue.c:85-131 | Each lock region of a push changes the accounts by exactly what it takes out of transit, keeps the ring and the list sound, and leaves at most three more regions. |
| `Results.FinishIsAdmit` | src_adr0005/result_queue.c:85-131 | With nothing in between, the lock regions of a push compose to the whole push. |
| `Results.MarkAccounts` | src_adr0005/result_queue.c:225-240 | Marking adds the id exactly when fewer than 16 are listed, and keeps the list free of duplicates. |
| `Results.ClearAccounts` | src_adr0005/result_queue.c:242-255 | Clearing removes exactly that id although the last id moves into the gap. |
| `Results.RunAccounts` | src_adr0005/result_queue.c:85-255 | The accounts, the bound of 16 and the absence of duplicates hold over every run of pushes, pops, marks and clears. |
| `ResultQueue.ResultQueue.Push` | src_adr0005/result_queue.c:85-131 | The push of the real queue over its ring and id array is the abstract one, and signals exactly when the result was queued. |
| `ResultQueue.ResultQueue.Displace` | src_adr0005/result_queue.c:108-131 | A refused result takes the place of the first queued result with an abandoned id, or is counted as a drop. |
| `ResultQueue.ResultQueue.TryPop` | src_adr0005/result_queue.c:133-145 | The pop of the real queue is the abstract one; it does not filter abandoned ids. |
| `ResultQueue.ResultQueue.Find` | src_adr0005/result_queue.c:16-23 | The scan finds the first position of an id, and tells membership. |
| `ResultQueue.ResultQueue.MarkAbandoned` | src_adr0005/result_queue.c:225-240 | The id array in place becomes the abstract list. |
| `ResultQueue.ResultQueue.ClearAbandoned` | src_adr0005/result_queue.c:242-255 | The swap with the last id in the array is the abstract removal. |
| `UbusWorker.StepKeepsInv` | src_adr0005/ubus_thread.c:19-81 | Every lock region of producers, result consumers, the stopper and the worker, with the three regions of `result_queue_push` and the two of `result_queue_try_pop` apart, keeps: tasks accepted = queued + taken; taken = answered + in flight; each answer carries its task's service, action and request id; the result accounts are off by exactly what is in transit. |
| `UbusWorker.Conservation` | src_adr0005/ubus_thread.c:19-81 | In every interleaving of those regions, accepted tasks = queued + in flight + answered; every answer is delivered, queued, dropped, abandoned, or in transit in a push or pop under way; and after the worker ended only tasks accepted since then are queued. |
| `UbusWorker.EveryAnswerRight` | src_adr0005/ubus_thread.c:19-81 | In every run every answer is the one its task deserves by the clock and call it was made from, in plain arithmetic; no late task is ever answered with a success. |
| `UbusWorker.AnswerFromStep` | src_adr0005/ubus_thread.c:19-45 | The clock and call recorded for an answer are those of the step that made it. |
| `UbusWorker.OwedShrinks` | src_adr0005/ubus_thread.c:68-78 | After the loop, each step of the worker turns the next cancellation it owes, in queue order, into an attempted one, or leaves both as they are. |
| `UbusWorker.StoppedWorkerEnds` | src_adr0005/ubus_thread.c:56-81 | From any reachable state in which it was stopped, the worker alone, whatever clock and calls answer, ends within a bounded number of steps with an empty queue and every accepted task answered; the tasks still queued after its loop by cancellations, in order. |
| `UbusThread.UbusThread.ProcessTask` | src_adr0005/ubus_thread.c:19-45 | Exactly one result is pushed, with the task's identity and the answer it deserves: failed with -ETIMEDOUT when it waited longer than its timeout, failed with -ENOTSUP without a HAL, else what the call reported. |
| `UbusThread.UbusThread.CancelRemaining` | src_adr0005/ubus_thread.c:68-81 | The drain loop over the real queues leaves no task and pushes the cancellations in queue order. |
| `TickHandoff.StepKeepsInv` | src_adr0005/event_loop.c:48-174 | Every atomic step keeps: the last period asked for is the one in effect or on its way, and a stored period has a non-zero eventfd count, a requester about to write, or a loop between drain and exchange. |
| `TickHandoff.RunKeepsInv` | src_adr0005/event_loop.c:86-230 | So does every interleaving. |
| `TickHandoff.BeliefIsTruth` | src_adr0005/event_loop.c:86-172 | Whenever nothing is in transit, the loop's period is the one the UI thread believes in. |
| `TickHandoff.SuppressionIsSound` | src_adr0005/ui_thread.c:16-25 | A request is suppressed exactly when its period is the one that will be in effect anyway. |
| `TickHandoff.PollReturns` | src_adr0005/event_loop.c:174-230 | With the UI thread at rest and a period stored, the loop's poll has something to return for. |
| `TickHandoff.LoopCatchesUp` | src_adr0005/event_loop.c:149-172 | From every reachable state at most seven steps of the loop alone bring it to the believed period. |
| `TickHandoff.OnePass` | src_adr0005/event_loop.c:149-172 | Four or five loop steps with nothing in between drain the count, apply a stored period, leave none stored, and go back to poll or exit. |
| `EventLoop.EventLoop.HandleControl` | src_adr0005/event_loop.c:149-172 | One pass over the real fields is a run of the loop's own hand-off steps, keeps the hand-off invariant, and turns a requested shutdown into one queued event and the end of the loop. |
| `EventLoop.EventLoop.RequestTick` | src_adr0005/event_loop.c:86-95 | A request for a new period is the first two of the UI thread's hand-off steps: it keeps the hand-off invariant and makes that period the one that will be in effect. |
| `EventLoop.EventLoop.RequestShutdown` | src_adr0005/event_loop.c:97-106 | A request is both steps of the shutdown protocol: the loop's poll has something to return for, and the period that will be in effect is not disturbed. |
| `UiThread.PeriodFollowsActivity` | src_adr0005/ui_thread.c:27-117 | Over any run of events from the start, the thread asks for fast ticks exactly while a countdown runs, slow ones when it has run out, none when inactive, never for the same period twice in a row, throughout if and only if no countdown overflows; with tick counts below 2^31 none does and the countdown stays within ten. |
| `UiThread.HandleMeaning` | src_adr0005/ui_thread.c:54-117 | What each event does: shutdown and a dark screen stop the ticks; a button starts fast ones and a countdown of ten; a tick starts it anew during an animation and otherwise counts down by what it stands for, the last making the ticks slow. |
| `UiThread.DifferenceFitsIff` | src_adr0005/ui_thread.c:93-100 | The difference the countdown stores fits an int exactly unless the merged count lies between 2^31 and 2^31 plus the ticks left. |
| `UiThread.HandleKeepsInvIff` | src_adr0005/ui_thread.c:54-117 | An event keeps that discipline exactly when it is no such tick. |
| `UiThread.CountdownFallsIff` | src_adr0005/ui_thread.c:90-106 | While the difference fits, a tick lowers the countdown exactly when its merged count is below 2^31; above, the cast to int makes it negative. |
| `UiThread.CountdownCanOverflow` | src_adr0005/ui_thread.c:93-100 | A concrete tick with count 2^31 whose difference, 2147483658, is no int; with wrap-around no run of such ticks ever ends the fast ticks. |
| `UiThread.UiThread.DefaultHandle` | src_adr0005/ui_thread.c:54-117 | The handler's field updates and requests are those of the abstract tick state, with the subtraction of ints wrapping, and its record stays the hand-off's belief. |
| `UiThread.UiThread.RequestTick` | src_adr0005/ui_thread.c:16-25 | A request for a new period is all three hand-off steps, one for the believed period is none, and in both cases the period asked for is the one that will be in effect. |
| `UbusTable.TakeKeeps` | src/hal/ubus_hal_real.c:117-123 | Marking a live slot completed before anything else keeps the table invariant, with the slot's context in the hands of the running code. |
| `UbusTable.CloseKeeps` | src/sys_status.c:359-396 | A context closed while in hand, called once and freed once, keeps every invariant, and its service is released exactly if it was a query. |
| `UbusTable.DeliverQueryKeeps` | src/sys_status.c:359-396 | The stale-response branch is unreachable: an answer reaches the service it was asked for, and only that one. |
| `UbusTable.AnsweredMeaning` | src/sys_status.c:375-393 | An answer ends the pending query and notes the time; OK takes over both flags and makes them valid, any other status keeps them and makes them invalid. |
| `UbusTable.DeliverControlKeeps` | src/sys_status.c:472-501 | A control answer keeps the invariant, forces a refresh, and sets the running flag to what was asked only on OK; no other service is touched. |
| `UbusTable.MovedOn` | src/sys_status.c:359-501 | What callbacks do to services adds up: they start no query, of a service without one they touch only the running flag and reset the time of the last update, and each touched service has had a context of its own closed. |
| `UbusTable.IssueQueryKeeps` | src/sys_status.c:417-432 | A new query for a service that is not pending keeps one open query per service. |
| `UbusTable.RefuseKeeps` | src/sys_status.c:433-438 | Taking a refused query back frees its context once and releases its service. |
| `UbusTable.AttachKeeps` | src/hal/ubus_hal_real.c:382-419 | A free slot that takes over a context, with its timer armed on a live connection, keeps the invariant. |
| `UbusTable.PendingIffOneSlot` | src/sys_status.c:359-445 | Between event-loop callbacks query_pending holds exactly when one live query slot carries the service's name and current request id; no second slot does, and no slot of that service carries another id. |
| `UbusTable.CalledExactlyOnce` | src/hal/ubus_hal.h:77-82 | Between callbacks every accepted context has been called once and freed once, or waits uncalled in a live slot; cleanup alone makes exceptions. |
| `UbusClient.DelayDefinedIff` | src/hal/ubus_hal_real.c:253-257 | The shift of the code is defined, and gives a delay, exactly up to 31 failures in a row. |
| `UbusClient.BackoffDoubles` | src/hal/ubus_hal_real.c:253-257 | Up to 31 failures in a row the delay is between 1 and 60 s, and each further failure doubles it up to 60 s. |
| `UbusClient.LimitReachedIff` | src/hal/ubus_hal_real.c:253-257 | Up to 31 failures, the delay is 60 s exactly from the seventh on. |
| `UbusClient.NoDelayAfter32` | src/hal/ubus_hal_real.c:253-257 | The 32nd failure in a row shifts to 2^31, which is no int: the delay is undefined. |
| `UbusClient.TooSoonIff` | src/hal/ubus_hal_real.c:293-305 | The attempt is refused exactly while less than the delay has gone by since the last. |
| `UbusClient.HalStatusMeaning` | src/hal/ubus_hal_real.c:207-236 | Which libubus status becomes which HAL status, by number. |
| `UbusClient.HeardMeaning` | src/hal/ubus_hal_real.c:160-191 | A reply counts through its first table named after the service, which says it exists and may say it runs; without one nothing changes. |
| `UbusClient.DueIff` | src/sys_status.c:406-415 | A service is asked exactly when no query is pending and it was never heard of, or last heard of 5000 ms ago or earlier. |
| `UbusClient.UbusClient.QueryCompleteCb` | src/hal/ubus_hal_real.c:196-248 | A completion is ignored unless its slot is live; then the callback runs once with the mapped status, the slot is released, its service updated, and the failure counter and rc id follow the status. |
| `UbusClient.UbusClient.AbortRequest` | src/hal/ubus_hal_real.c:117-130 | An abort may call the completion callback synchronously: since the slot was marked first, nothing changes. |
| `UbusClient.UbusClient.AbortAllPending` | src/hal/ubus_hal_real.c:263-280 | Every live slot is released and its callback called exactly once with the status; every other slot and context is untouched. |
| `UbusClient.UbusClient.ResetConnection` | src/hal/ubus_hal_real.c:282-291 | The same, and the connection and rc id are gone. |
| `UbusClient.UbusClient.RequestTimeoutCb` | src/hal/ubus_hal_real.c:117-153 | A timeout of a live slot calls exactly its callback with TIMEOUT; from the third failure in a row on, exactly the other live slots are called with CONN_FAILED; a late timer changes nothing. |
| `UbusClient.UbusClient.EnsureContext` | src/hal/ubus_hal_real.c:293-318 | Up to 31 failures in a row a connection is attempted exactly when the back-off delay is over; success clears the failures, a failed attempt adds one. |
| `UbusClient.UbusClient.EnsureRcId` | src/hal/ubus_hal_real.c:320-330 | With a connection and an id nothing changes. Otherwise, while the lookup runs, other requests may be answered, each exactly once, and no other context is touched; a failed lookup then aborts every request that is left and closes the connection. |
| `UbusClient.UbusClient.LookupId` | src/hal/ubus_hal_real.c:324 | Any number of replies and completions of other requests during the lookup keep the invariant of table, contexts and services. |
| `UbusClient.UbusClient.FreeSlot` | src/hal/ubus_hal_real.c:88-99 | The first slot not in use. |
| `UbusClient.UbusClient.RequestAsync` | src/hal/ubus_hal_real.c:370-491 | 0 promises the callback: it waits in a live slot, or was called once with a failure; -1 leaves everything as it was. |
| `UbusClient.UbusClient.FileRequest` | src/hal/ubus_hal_real.c:382-419 | The request takes the first free slot, with name, context and operation, a fresh record of what was heard, and an armed timer; or, without a slot or when the invocation fails, its callback gets ERROR. |
| `UbusClient.UbusClient.QueryDataCb` | src/hal/ubus_hal_real.c:160-191 | Only the first table of the reply named after the service counts, and a running flag once seen stays; also while other code holds contexts. |
| `UbusClient.UbusClient.ServiceQueryCb` | src/sys_status.c:359-396 | The scan by name updates the first service of that name if the request id is current, and frees the context. |
| `UbusClient.UbusClient.ServiceControlCb` | src/sys_status.c:472-501 | A control answer forces a refresh, sets the running state only on success, and frees the context. |
| `UbusClient.UbusClient.AskIfDue` | src/sys_status.c:406-441 | A service is asked exactly when it is not pending, not fresh, and memory was found; then exactly one context is added, under the next request id. |
| `UbusClient.UbusClient.SysQueryServices` | src/sys_status.c:398-445 | Although callbacks of other services may run meanwhile: every service that at entry is not pending, is unheard of or last heard of at least 5000 ms ago, and gets memory, owns exactly one new query context; no other service does, unless a callback of this very call released it; the contexts are in service order and the result counts them. |
| `UbusClient.UbusClient.NextRequestId` | src/sys_status.c:417-419 | The counter skips 0 when it wraps. |
| `UbusClient.UbusClient.SysControlService` | src/sys_status.c:503-531 | An out-of-range index changes nothing; 0 means the one control context added has its promise; -1 after a refusal means it was freed uncalled. |
| `UbusClient.UbusClient.Init` | src/hal/ubus_hal_real.c:335-345 | Initialising twice does nothing; once leaves a usable empty table whether or not the connection came up. |
| `UbusClient.UbusClient.Cleanup` | src/hal/ubus_hal_real.c:347-368 | All slots are emptied, no callback runs, and exactly the contexts then held are leaked. |
| `UbusClient.UbusClient.Dispatch` | src/hal/ubus_hal_real.c:117-491 | Every event-loop callback, with any answers of libubus, keeps the invariant of table, contexts and services, and only cleanup leaks a context. |
| `UbusClient.UbusClient.Run` | src/hal/ubus_hal.h:77-82 | Over every run of events, whatever libubus, malloc and the clock answer: each accepted callback has run exactly once or still waits in one live slot, and, cleanup aside, a service is pending exactly when its one request is in a slot. |
| `ServicesSpec.EnsureVisibleWorks` | src/pages/page_services.c:234-251 | The scroll window contains the selection and lies in the list; a window that already does is not moved. |
| `ServicesSpec.KeyKeepsInv` | src/pages/page_services.c:253-335 | A key keeps the selection visible and in range under wrap-around, and leaves a request exactly when it confirms Yes: for the selection, against its cached state, closing the dialog. |
| `ServicesSpec.OnKeyMeaning` | src/pages/page_services.c:253-335 | What each key does, in full: K1 up and K3 down round the ends, K2 opens the dialog on No; in the dialog K1 and K3 turn the answer over, K2 closes it and on Yes alone asks for the opposite of the cached state. |
| `ServicesSpec.RenderMeaning` | src/pages/page_services.c:201-214 | What a render makes of each line: a start is over once the service runs, a stop once it does not, an error once its state is known; all other lines stay. |
| `ServicesSpec.MovesCancel` | src/pages/page_services.c:297-325 | Down then up, or up then down, comes back to the selection, also at the ends of the list. |
| `ServicesPage.ServicesPage.OnKey` | src/pages/page_services.c:253-335 | The page's field updates are those of the abstract key. |
| `ServicesPage.ServicesPage.EnsureVisible` | src/pages/page_services.c:234-251 | The three clamps in a row are the abstract window. |
| `ServicesPage.ServicesPage.TakeControlRequest` | src/pages/page_services.c:349-363 | The request is handed out once and then gone, with its time noted. |
| `ServicesPage.ServicesPage.Render` | src/pages/page_services.c:201-214 | Each line that was starting, stopping or in error is synchronised with what was reported, and the running states are cached. |
| `PageSpec.NeighbourIsCyclic` | src/page_controller.c:65-82 | The clamped page index is the cyclic neighbour, and left undoes right. |
| `PageSpec.KeyKeeps` | src/page_controller.c:124-193 | A key keeps the page machine's invariant, moves no page, and leaves a control request exactly when it confirms Yes. |
| `PageSpec.DeafButton` | src/page_controller.c:128-139 | A button on a dark screen only lights it; one during an animation (250 ms for a slide or change of mode, 400 ms for a shake) does nothing but note the time. |
| `PageSpec.ViewButton` | src/page_controller.c:161-189 | In view mode short K3 starts the slide to the next page and short K1 to the previous one, cyclically; short K2 turns the screen off; long K2 enters the page or shakes its title; the rest goes to the page. Nothing else changes. |
| `PageSpec.EnterButton` | src/page_controller.c:143-158 | In enter mode every key restarts the time allowed, long K2 leaves with the exit hook and closes the dialog, and any other key goes to the page. |
| `PageSpec.ConfirmButton` | src/ui_controller.c:53-61 | The button that confirms Yes shows the service as starting or stopping since now, or in error if the call was not taken up, and nothing else changes. |
| `PageSpec.ButtonKeeps` | src/ui_controller.c:46-67 | After every button no request is pending; a control call is issued exactly when a short K2 confirmed Yes, in range, against the cached state. |
| `PageSpec.TickKeeps` | src/page_controller.c:195-238 | A tick keeps the invariant and changes the page exactly when it completes a slide, to the cyclic neighbour in its direction. |
| `PageSpec.TickMeaning` | src/page_controller.c:195-238 | What a tick does, in full: when the idle time turns the screen off, when the enter time ends enter mode, when a slide arrives, and when a render is asked for. |
| `PageSpec.StepKeeps` | src/page_controller.c:65-238 | Every button, tick, render, control result or change of the idle timeout keeps the invariant of the whole product state. |
| `PageSpec.EveryRun` | src/page_controller.c:65-238 | Over every run from the start: page in range; dark screen means view mode; enter mode means an enterable page and no slide; a slide leads from the current page to its cyclic neighbour; on_enter and on_exit alternate on the same page; the dialog is open only in enter mode on Services; no request pending; selection visible. |
| `PageController.PageController.HandleKey` | src/page_controller.c:124-193 | The controller's field updates and hook calls are those of the abstract key. |
| `PageController.PageController.Tick` | src/page_controller.c:195-238 | The same for a tick. |
| `PageController.PageController.SwitchPage` | src/page_controller.c:65-82 | The same for the start of a slide. |
| `PageController.PageController.TryEnterMode` | src/page_controller.c:101-122 | The same for entering and leaving, with the hook calls in order. |
| `UiController.UiController.HandleButton` | src/ui_controller.c:46-67 | The button reaches the controller and the request it leaves is issued in the same step; a change asks for a render. |
| `UiController.UiController.Tick` | src/ui_controller.c:69-89 | A tick asks for a render when the controller changed, or when the screen is on and nothing is animated. |
| `UiController.IdleOnlyWhenNothingWaits` | src/ui_controller.c:133-145 | The period is zero exactly when the screen is off, and then no mode, hook or dialog waits for a tick; 20 exactly during an animation, 1000 exactly on a static lit screen. |
| `GpioLine.OneEventPerPress` | src/hal/gpio_hal_libgpiod.c:146-239 | From an accepted press to the next, a line emits at most one event, exactly one if an accepted release follows: long if an earlier check saw the press outstanding 600 ms, otherwise short at the release. |
| `GpioLine.SilentUntilPress` | src/hal/gpio_hal_libgpiod.c:206-239 | A line that is up, or has reported its long press, emits nothing until the next accepted press. |
| `GpioLine.DroppedIff` | src/hal/gpio_hal_libgpiod.c:184-188 | An edge is dropped exactly when debouncing is left to the program, an edge was accepted before, and that was less than 30 ms ago. |
| `GpioLine.GestureInHistory` | src/hal/gpio_hal_libgpiod.c:169-239 | The same for a press anywhere in a line's history. |
| `GpioLine.LengthToldIff` | src/hal/gpio_hal.h:17-18 | The documented meaning of short and long is met exactly when a late check before the release and a late release go together. |
| `GpioLine.LengthCanBeMistold` | src/hal/gpio_hal.h:17-18 | Concrete presses for which it is not met, one of each kind. |
| `GpioSpec.DelayIsMinimumIff` | src/hal/gpio_hal_libgpiod.c:115-144 | The timer is set to a non-zero delay; it is the shortest remaining time, at least 1 ms, exactly when no overdue line is followed only by lines with more than a millisecond left. |
| `GpioSpec.RemainingAre` | src/hal/gpio_hal_libgpiod.c:121-125 | The times compared are, for each outstanding line, the milliseconds left of its 600, none if they are over. |
| `GpioSpec.DelayCanHideAnOverdueLine` | src/hal/gpio_hal_libgpiod.c:122-129 | Concrete lines for which the timer waits although one line is overdue: 0 doubles as the mark for none. |
| `GpioSpec.FeedKeeps` | src/hal/gpio_hal_libgpiod.c:146-239 | Each line stays where its own history leads and its pushed events are those its machine emits. |
| `GpioSpec.ProcessEdgeKeeps` | src/hal/gpio_hal_libgpiod.c:169-239 | An edge keeps that, adds at most one event, and leaves the timer armed exactly when some press is outstanding. |
| `GpioSpec.CheckKeeps` | src/hal/gpio_hal_libgpiod.c:146-167 | A pass over the lines adds at most one event for each. |
| `GpioSpec.ReadKeeps` | src/hal/gpio_hal_libgpiod.c:380-429 | Between reads fewer than 16 events are pending, so the ring's discard is never reached; a read hands out the oldest event not yet handed out, and answers nothing only when none is pending; the timer is armed, non-zero, exactly when some press is outstanding. |
| `GpioSpec.ReadSeen` | src/hal/gpio_hal_libgpiod.c:380-429 | What one read gives a line, from the chip's edges alone: nothing while events are pending; else a check, and unless some line was late, the edges at its offset, in order, none left out, a rising edge a press exactly when the active level is 1 and a falling one exactly when it is 0, at its timestamp in milliseconds. |
| `GpioSpec.ReadAnswer` | src/hal/gpio_hal_libgpiod.c:380-429 | What a read answers: the oldest pending event; else a long press of the check if a line is late; else the chip's failure, nothing, or what its edges make. |
| `GpioSpec.ReadStamps` | src/hal/gpio_hal_libgpiod.c:146-238 | An event carries the time of the check that found its long press, or that of an edge at its own line's offset. |
| `GpioSpec.Run` | src/hal/gpio_hal_libgpiod.c:380-429 | All of that over every run of reads. |
| `GpioSpec.RunSeen` | src/hal/gpio_hal_libgpiod.c:380-429 | Over every run a line has seen exactly the checks and edges of its reads, in order. |
| `GpioSpec.EveryPressOneEvent` | src/hal/gpio_hal_libgpiod.c:146-429 | In every run, from the chip's edges to the caller: the events of a line from a press to the next are exactly that press's one event, in order. |
| `GpioSpec.PressThenRelease` | src/hal/gpio_hal_libgpiod.c:169-239 | A press edge and a release edge read together by a fresh driver are answered, at either active level, with one event of that line at the time of the release: short with the timer, else long from 600 ms on. |
| `GpioHal.GpioHal.PendingPush` | src/hal/gpio_hal_libgpiod.c:65-73 | The push on the array ring is the abstract one, a full ring losing its oldest event. |
| `GpioHal.GpioHal.PendingPop` | src/hal/gpio_hal_libgpiod.c:75-83 | The pop on the array ring is the abstract one. |
| `GpioHal.GpioHal.UpdateLongPressTimer` | src/hal/gpio_hal_libgpiod.c:115-144 | The loop over the lines sets the timer the abstract fold gives. |
| `GpioHal.GpioHal.HandleLongPressTimer` | src/hal/gpio_hal_libgpiod.c:146-167 | The loop over the lines is the abstract pass, then the timer is set again. |
| `GpioHal.GpioHal.HandleEdge` | src/hal/gpio_hal_libgpiod.c:169-239 | Debounce, press and release over the line records are the abstract edge. |
| `GpioHal.GpioHal.Read` | src/hal/gpio_hal_libgpiod.c:380-429 | Pending events first, then the timer, then the chip: the abstract read. |

## Left out

- Null arguments, allocation failure at set-up and a ring of capacity zero; the ring's constructor covers `ring_queue_init` and `ring_queue_set_merge_fn` together, and `destroy` is not modelled.
- The blocking waits of `task_queue.c` and `result_queue.c`: they are the event queue's protocol again, which is modelled once, in `EventWait`.
- EventWait.WaitEnds: a return of 0 does not mean that the queue is empty at that moment, and the total time of a wait is not bounded, since the deadline starts anew with every sleep.
- Order of critical events across a REPLACED push: the new event takes the slot of the tick, so it is not FIFO.
- Events.RefusedIffFullOfCritical: is about a push that is not interrupted; between its two lock regions another thread can make room or take the tick, and then an event can be dropped although the ring is not full.
- Close with several waiters: there is one consumer, and close signals once.
- Results.RunAccounts: orders whole calls; calls that overlap are covered by `UbusWorker.Conservation`, with one pushing thread, as in the program, and any number of consumers and markers.
- Results.PushAccounts: a result that was queued before its id was marked can still be delivered, since a pop does not filter; marks beyond 16 are ignored.
- Waiting of the worker for new tasks: its wait is a step that may end at any time.
- Polling of GPIO and timer descriptors by the ADR0005 loop: tick events appear as pushes of any thread, button events likewise.
- UbusClient.UbusClient.EnsureContext: promises nothing about the delay with 32 or more failures in a row, where the C shift is undefined (`DelayDefinedIff`).
- UiThread.PeriodFollowsActivity: a countdown that overflowed is modelled as wrapped; C leaves it undefined.
- A UI thread without an event loop, which asks for no period at all.
- UbusClient.UbusClient.Cleanup: the contexts leaked at shutdown stay unfreed in the program too; the model records them in `leaked`.
- UbusClient.UbusClient.FreeSlot: the fields that `alloc_request` clears are written by the caller together with the rest, as nothing runs in between.
- Slots, services and contexts are values in arrays and a sequence, so a context is a number and not an address; the pointer back from a request to its slot is the slot's index.
- The user's own callback of a control call, which only logs; the success flag given to callbacks is `status == OK`.
- Message building and parsing beyond the list of named tables with a running flag.
- Back-off after a failed lookup: as in the code, `EnsureRcId` does not count one as a failure.
- GpioHal.GpioHal.constructor: opening the chip, choosing software debounce and detecting the pressed level are its parameter `cfg`; reads on a closed chip answer an error and are not modelled.
- Event type numbers of the buttons: an event here is a line and a long flag.
- Pages other than Services answer keys arbitrarily (`PageAnswer`); a page without hooks is recorded as if they were called.
- A slide can be dropped: a key after its duration but before the next tick clears it unapplied, so n presses need not move n pages; `PageSpec.TickKeeps` says what moves the page.
- Drawing, fonts, easing, display transfer, /proc and sysfs parsing, device trees and scripts.
- ADR0005's own `sys_status.c`, page controller and GPIO driver, and the mock HALs: simpler relatives of what is modelled.
