# Verification of the coroutine runtime

This Dafny project models a single-threaded coroutine runtime and proves what its parts promise.
`dafny verify dfyconfig.toml` checks it.

The components, one or two modules each:

- `StateChain`: the macros that turn a structured coroutine body into a chain of resumable states, as a
  compiler with a proof that it preserves meaning. Conditions may change the state, and every test is an event, so
  none is repeated, left out or moved. Loop-backs are bounded by an arbitrary number, so the
  theorem also covers bodies that do not terminate.
- `JoinModel`, `Join`: coroutines that await groups of coroutines: wait counts, parents, and the loop of
  `resume`, under every order in which suspended leaves are resumed. What a coroutine does next may depend
  on what it was given so far. No coroutine finishes while its siblings are still being started.
- `WaitN`: the waiter behind CO_AWAIT_ANY_N, with the wrap-around of `size_t`.
- `TimerHeap`, `TimerIndex`, `TimerStore`, `TimerWitness`: the timer index. `TimerHeap` and `TimerIndex` describe
  the heap and the lists as values, `TimerStore` is the structure with its array, back-pointers and search tables, and
  `TimerWitness` a run that goes wrong.
- `RingQueue`: the ring buffer with branchless wrap-around and growth by half.
- `ChannelModel`, `Channel`: the channel. `ChannelModel` has the steps between two wake-ups, and whole runs
  in which a woken coroutine only becomes ready. `Channel` is the class whose `try_resume` runs the woken
  coroutine at once: there every wake-up is a point at which any legal operations may run, nested to any depth.
  A coroutine pops only while it holds a pin. Consumer safety is claimed as long as only single items are
  pushed (in the ready-set runs for pushes of any size), and the producer bound as long as no push runs inside
  the wake-ups of another push; the ghost flags `multi` and `nested` record when that is violated, and
  `ChannelModel.TwoItemsOverpin` and `ChannelModel.NestedPushOverblocks` show that both are needed.
- `SendModel`, `SendQueue`: the queue of buffers to send and the send-progress loop. Sockets answer with any
  number of bytes up to what they are given.
- `PoolModel`, `KeepAlivePool`: the pool of idle connections.
- `PollModel`, `PollDispatch`: registration with epoll and dispatch of a batch of events. The kernel is a set
  of registered waiters that decides which calls succeed. Polling is not nested, and the loop is not
  torn down in the middle of a batch. In `PollDispatch` resumed coroutines do not delete a waiter that the
  kernel would keep a pointer to; `PollModel` says exactly when it would.

In the modules whose names end in `Model`, and in `TimerHeap` and `TimerIndex`, the state is a value and each
operation a function on it; lemmas say what every operation and every run keeps. The classes update their
fields in place, and their methods are proved against those functions. What the functions themselves mean is stated
apart from their bodies: lemmas whose names end in `Effect` give the state after each operation place by place, the
methods say the same of their fields, and the lemmas whose names end in `Laws` relate the statements of a coroutine
body to one another.

Results about the code as it is written:

- The timer heap climbs to `i/2` and descends to `2i+1` and `2i+2`, and removal from the middle only sifts
  down. So `get_next_timer` can miss the earliest deadline (`TimerWitness.AsWrittenMissesEarliest`).
  `TimerIndex.AsWrittenExactly` says for every run when it does not. The parameter `fixed` (or `repaired`)
  selects a variant with parent `(i-1)/2` and a sift-up after removal, for which it never does.
- A ring queue asked for with a capacity below 2 is wrong, because half of it is nothing and it never grows: with
  capacity 1 the second element takes the place of the first, and with capacity 0 the first push writes outside
  the buffer.
- CO_AWAIT_ANY_N with n = 0, or with n greater than the number of coroutines, never resumes its parent and
  never frees the waiter.
- `set_poll_request(0)` on a registered waiter leaves it registered but without a request, and that is the only
  way in which `epollfd_total_count` goes wrong (`PollModel.CountExactly`). Closing the waiter then leaves the
  count too high for good, and giving up its descriptor with `remove_cort_fd` and destroying it leaves the kernel
  with a pointer to a deleted waiter (`PollModel.DestroyedStaysKnown`).
- `get_keep_alive_connection_client` leaves the callback of the connection it takes. If that connection is notified
  before another callback is set, `remove_keep_alive` dereferences the null pool, writes past the end of a vector, or
  drops another connection (`PoolModel.TakenThenNotified`, `PoolModel.NotifiedDropsAnother`). `PoolModel.RemoveExactly`
  says exactly when it is right.

## Model

| member | source | states |
|---|---|---|
| StateChain.ChainPreservesMeaning | cort_proto.h:535-703 | For every coroutine body that compiles, every environment, every pattern of awaits that finish at once or suspend, and every bound on the number of loop-backs, the chain of states run through resume has the same actions, condition tests and awaits in the same order, the same end state and the same end as direct structured execution |
| StateChain.BlockCorrect | cort_proto.h:547-566 | A block expanded anywhere in a chain, with any continuation and any enclosing loop, behaves like the block followed by that continuation |
| StateChain.StmtCorrect | cort_proto.h:535-685 | The same for a single statement that ends a state |
| StateChain.SplitCorrect | cort_proto.h:547-566 | Splitting a body at a resume point, into the state before it and the state after it, does not change what runs |
| StateChain.RunAwait | cort_proto.h:535-545 | An await that finishes at once and one that suspends and is resumed lead to the same continuation |
| StateChain.LeapCorrect | cort_proto.h:665-667 | CO_BREAK and CO_CONTINUE reach the states of the innermost loop, and CO_RETURN ends the coroutine |
| StateChain.JumpIfCorrect | cort_proto.h:665-667 | CO_BREAK, CO_CONTINUE or CO_RETURN under a C++ if leaves its state exactly when the condition holds, and the rest of the state runs otherwise |
| StateChain.BranchesCorrect | cort_proto.h:568-634 | A chain of if, else-if and else runs exactly the first branch whose condition holds, and then what follows CO_IF_END |
| StateChain.LoopCorrect | cort_proto.h:651-685 | The three functions of a loop class together behave like the loop, for CO_WHILE and CO_DO_WHILE, whatever way the body ends |
| StateChain.LoopBackCorrect | cort_proto.h:677-683 | After the body or CO_CONTINUE the step expression runs before the condition, and the loop is entered again exactly when it holds |
| StateChain.BranchLaws | cort_proto.h:568-634 | What direct execution of the branches is: a condition is tested once; if it holds the body runs and no other alternative is tested, if not the else body runs; CO_ELSE_IF is an else with an if inside |
| StateChain.ConditionalLaws | cort_proto.h:410-412 | CO_AWAIT_IF is an if around the await, and a jump under a C++ if is an if around the jump |
| StateChain.WhileLaw | cort_proto.h:636-641 | CO_WHILE is an if around a CO_DO_WHILE with the same condition, step and body |
| StateChain.DoWhileLaws | cort_proto.h:643-685 | CO_DO_WHILE runs its body before it tests anything; a body that ends or continues is followed by the step and then by what CO_WHILE does; CO_BREAK ends this loop and CO_RETURN the coroutine |
| StateChain.SuspendsExactly | cort_proto.h:535-545 | A state hands over to its resumer exactly if the awaited coroutine did not finish at once, with the next state recorded and nothing else done; otherwise the next state is called directly |
| StateChain.SuspendsIfExactly | cort_proto.h:410-412 | The same behind the test of CO_AWAIT_IF, which happens before |
| StateChain.ScopedStmtInLoop | cort_proto.h:665-667 | Inside a loop every statement compiles; outside, every statement without branches does, unless it is CO_BREAK or CO_CONTINUE |
| Join.Runtime.RunAll | cort_proto.h:97-168 | Under every order in which suspended leaves are resumed, the run terminates with the result of sequential evaluation, every await of every coroutine is continued exactly once, and only after everything it awaited has finished |
| Join.Runtime.Resume | cort_proto.h:150-162 | Resuming a leaf keeps, for the whole tree, that a suspended coroutine counts exactly its unfinished awaited children; it climbs to a parent exactly when the last of its children has finished |
| Join.Runtime.CallBack | cort_proto.h:155-161 | A coroutine whose callback is called goes on once and then waits again or finishes with the right result |
| Join.Runtime.DecrWaitCount | cort_proto.h:92-94 | Counting down makes the wait count of the parent the number of its unfinished children again, and it is zero exactly when the parent may go on |
| Join.Runtime.Start | cort_proto.h:97-107 | Starting a coroutine disturbs none that had already started and ends suspended or done, with all wait counts right |
| Join.Runtime.WaitRange | cort_proto.h:523-533 | All members of a range are started; the count returned is the number of those that are unfinished, and each of these knows its parent |
| Join.Runtime.AwaitEach | cort_proto.h:97-116 | Awaiting coroutines one by one leads to the same wait count as counting the group |
| Join.Runtime.StartChild | cort_proto.h:513-521 | One more member is started; it is counted exactly if it waits, and its started siblings are left alone |
| JoinModel.Progress | cort_proto.h:150-162 | While a coroutine waits, some coroutine below it has yielded and can be resumed, so no schedule gets stuck |
| JoinModel.Completed | cort_proto.h:97-168 | When the root has finished, everything has: each event of the program occurs exactly once, in an order in which nothing is continued before what it awaits, and each result is that of sequential evaluation |
| JoinModel.ParentWaits | cort_proto.h:156-161 | When nothing runs, a suspended coroutine has stored the coroutine that awaits it as its parent, and that one is suspended too |
| JoinModel.FinishCounts | cort_proto.h:159-161 | When a coroutine finishes, its parent has exactly one unfinished child less and nobody else is affected |
| JoinModel.CountDownKeeps | cort_proto.h:161 | A parent with a newly finished child has a positive wait count, and counting down makes it exact again |
| JoinModel.ReadsRight | cort_proto.h:150-162 | What a coroutine reads from its finished children is what sequential evaluation gives it |
| JoinModel.EvalMeans | cort_proto.h:97-168 | What sequential evaluation is: a coroutine combines what all its rounds gave it, in order; a yield gives its answer, a group the results of its members in order |
| JoinModel.AllEventsAre | cort_proto.h:150-162 | The events of a program are one continuation for each await of each coroutine and one end for each coroutine |
| WaitN.AwaitAnyN | cort_proto.h:320-333 | In every order of completion, a suspended parent is resumed exactly once, at the completion number n less those finished at start and by the coroutine that finished then, and the waiter is freed exactly once, if and only if that number lies between 1 and the number of pending coroutines; so the waiter is freed exactly if n lies between 1 and the number of coroutines; a parent that goes on at once is never resumed and the waiter is still freed exactly once |
| WaitN.Launch | cort_proto.h:735-752 | Coroutines are started in order until n have finished at once; the parent is suspended exactly if fewer have, and then the waiter is armed with what remains, in wrapping arithmetic |
| WaitN.ResumedOnTime | cort_proto.h:707-733 | With 1 <= k <= W: before completion k nothing happens, at completion k the parent is resumed, and at completion W, not earlier, the waiter is freed |
| WaitN.NeverResumed | cort_proto.h:708-711 | With k = 0 or k > W the count wraps or never reaches zero: no completion resumes the parent or frees the waiter |
| WaitN.OrphanFreed | cort_proto.h:742-750 | A waiter nobody waits for resumes no one and is freed at the last completion |
| TimerHeap.SiftUpOrders | time/cort_timeout_waiter.cpp:147-171 | Sifting up restores the order of the tree whose parents it climbs, when only the moved slot may be too early; for parent i/2 as written and (i-1)/2 repaired |
| TimerHeap.SiftUpKeepsSlots | time/cort_timeout_waiter.cpp:147-171 | Sifting up loses and duplicates no slot |
| TimerHeap.SiftDownOrders | time/cort_timeout_waiter.cpp:173-209 | Sifting down restores the 2i+1/2i+2 order when only the key at pos may be too large |
| TimerHeap.SiftDownKeepsSlots | time/cort_timeout_waiter.cpp:173-209 | Sifting down loses and duplicates no slot |
| TimerHeap.SiftUpRoot | time/cort_timeout_waiter.cpp:147-171 | Sifting up keeps the root earliest whatever the order of the other slots |
| TimerHeap.SiftDownRootExact | time/cort_timeout_waiter.cpp:173-209 | After sifting down from the root the root is earliest if and only if one of the first three slots was |
| TimerHeap.InsertOrders | time/cort_timeout_waiter.cpp:211-219 | Adding a list keeps the order of the tree that sift-up climbs |
| TimerHeap.RekeyOrders | time/cort_timeout_waiter.cpp:223-225 | A list whose earliest deadline moved back is put right by sifting down |
| TimerHeap.DeleteRootOrders | time/cort_timeout_waiter.cpp:226-233 | Expiring the root list of an ordered heap, as written, leaves an ordered heap |
| TimerHeap.DeleteOrdersExactly | time/cort_timeout_waiter.cpp:226-233 | Removing an emptied list as written keeps the 2i+1/2i+2 order if and only if it is at the root, or last, or the last slot is not earlier than the parent of the place it moves to |
| TimerHeap.DeleteRepairedOrders | time/cort_timeout_waiter.cpp:226-233 | With a sift-up after removal, which the code lacks, every removal keeps the order |
| TimerIndex.RepairedRunIsEarliest | time/cort_timeout_waiter.cpp:72-77 | Repaired heap: after every run of adds and removals with a clock that does not go back, get_next_timer returns a timer that no live timer precedes |
| TimerIndex.AsWrittenExactly | time/cort_timeout_waiter.cpp:72-268 | As written: get_next_timer is right after every step of a run if and only if every removal of the earliest timer of the root list sifts down over a heap whose earliest slot is among the first three |
| TimerWitness.AsWrittenMissesEarliest | time/cort_timeout_waiter.cpp:72-268 | A witness: a legal run of the code as written, ten adds at clock 0 and three removals of the earliest timer of the root list, after which get_next_timer returns the timer that ends at 10 while one that ends at 4 is live |
| TimerIndex.RemoveRootExactly | time/cort_timeout_waiter.cpp:221-268 | As written: a removal keeps the root earliest exactly if it is not at the root or the earliest slot is among the three that sifting down compares first |
| TimerIndex.AddKeepsRoot | time/cort_timeout_waiter.cpp:244-259 | As written: every add keeps the root minimal |
| TimerIndex.AddOnlyRunOrders | time/cort_timeout_waiter.cpp:147-171 | As written: runs of adds alone keep heap[i / 2] <= heap[i] at every slot but the root |
| TimerIndex.NextIsEarliestExactly | time/cort_timeout_waiter.cpp:72-77 | get_next_timer returns the earliest live timer if and only if the root slot is earliest |
| TimerIndex.RunAgrees | time/cort_timeout_waiter.cpp:138-268 | After every run, as written and repaired, the heap holds exactly one slot for each list with timers, with its earliest deadline, and every list is sorted with the earliest deadline at its back |
| TimerIndex.RemoveListed | time/cort_timeout_waiter.cpp:261-268 | After a removal exactly the other timers are live |
| TimerIndex.AddLive | time/cort_timeout_waiter.cpp:244-259 | After an add exactly the timers before and the new one are live, and the new one is at the front of the list of its timeout |
| TimerIndex.RunLive | time/cort_timeout_waiter.cpp:244-268 | After every run, as written and repaired, exactly the timers that were added and not removed since are live |
| TimerHeap.UpOrder | time/cort_timeout_waiter.cpp:147-171 | The order that climbing as written keeps is that of slot i and slot i/2 |
| TimerHeap.DownOrder | time/cort_timeout_waiter.cpp:173-209 | The order of the repaired heap is that no slot i is later than slots 2i+1 and 2i+2, where descending looks |
| TimerStore.CortTimer.AddTimer | time/cort_timeout_waiter.cpp:244-259 | The array, back-pointers, short table, long map and lists agree after an add; the live timers are those before and the returned one, which ends at now + timeout; and sorted lists stay in agreement with the heap when the clock does not go back |
| TimerStore.CortTimer.RemoveTimer | time/cort_timeout_waiter.cpp:261-268 | The same after a removal; if heap and lists agreed, exactly the given timer is not live any more |
| TimerStore.CortTimer.GetNextTimer | time/cort_timeout_waiter.cpp:72-77 | The timer at the back of the root list, which is live if heap and lists agree, or none if and only if there are no timers |
| TimerStore.CortTimer.UpUpdateHeap | time/cort_timeout_waiter.cpp:147-171 | The array shows the sifted-up slots with all back-pointers right, and the result says whether anything moved |
| TimerStore.CortTimer.DownUpdateHeap | time/cort_timeout_waiter.cpp:173-209 | The array shows the sifted-down slots with all back-pointers right, and the result says whether anything moved |
| TimerStore.CortTimer.GetTimeoutList | time/cort_timeout_waiter.cpp:138-145 | Every timeout has one list, found in the table below 4096 and in the map above; it is out of the heap exactly if it has no timers |
| TimerStore.CortTimer.AddTimeOut | time/cort_timeout_waiter.cpp:211-219 | The heap array, grown if full, holds the new list besides the old ones |
| TimerStore.CortTimer.RemoveTimeOut | time/cort_timeout_waiter.cpp:221-242 | The heap follows the new earliest deadline of a list, and an emptied list leaves the heap and the long map |
| RingQueue.CortModIsRemainder | cort_util.h:104 | CORT_MOD in wrapping 64-bit arithmetic is the remainder for every index below twice a capacity of up to 2^63 |
| RingQueue.RunQueue | cort_util.h:92-162 | Every run of push, pop, front and index from an initial capacity of at least 2 shows what a plain sequence shows; growth relocates at most as many elements as the slots it adds, and the capacity stays within 3/2 of the peak size or the initial capacity |
| RingQueue.Relocate | cort_util.h:146-158 | Both copies are in bounds and disjoint, and the elements keep their order from front to back |
| RingQueue.PodQueue.Push | cort_util.h:146-162 | Appends at the back, across wrap-around and growth; only a full queue of capacity 1 loses an element, because half of it is nothing |
| RingQueue.PodQueue.Pop | cort_util.h:140-144 | Takes the first element |
| RingQueue.PodQueue.Get | cort_util.h:122-126 | Reads the element at an offset from the front |
| RingQueue.PodQueue.Front | cort_util.h:128-130 | Reads the first element |
| ChannelModel.RunIsCalm | cort_channel.h:39-198 | With woken coroutines made ready: over every run of pushes of one or more items, pops by pin holders, waits, resizes up and down and close, delivery is in order and exactly once, receivers are served in the order of their calls, every pin has its object, a receiver waits only when all objects are pinned, and blocked senders never exceed the objects over the buffer size |
| ChannelModel.CloseDrains | cort_channel.h:154-198 | Close leaves all four waiting places empty, and everyone who ever waited has been woken exactly once |
| ChannelModel.ClosedRunNeverWaits | cort_channel.h:62-101 | After close nobody waits or blocks in any run that does not set the buffer size |
| ChannelModel.ArriveKeeps | cort_channel.h:62-77 | Whatever an arriving receiver gets, pins stay grants, delivery and service stay in order, and everybody who waits is accounted for |
| ChannelModel.WaitEffect | cort_channel.h:62-77 | On an open channel a receiver gets a pin if an object is not pinned; otherwise it waits behind those who already wait, although the newest waits in the parent slot, and nothing else changes |
| ChannelModel.PushEffect | cort_channel.h:85-109 | Ready-set model: a push stores its objects, pins and wakes exactly the first min(count, waiting) receivers in order, and adds its producer behind the blocked senders exactly if the objects exceed the buffer size |
| ChannelModel.PopEffect | cort_channel.h:122-139 | Ready-set model: a pop takes the oldest object and one pin; unless that leaves room it wakes exactly one sender, the newest or, without one, the first in the queue |
| ChannelModel.ResizeEffect | cort_channel.h:39-56 | Ready-set model: a larger size wakes exactly the first min(growth, blocked) senders, the newest and then the queued ones in order, and leaves the others blocked; a smaller one wakes nobody |
| ChannelModel.CloseEffect | cort_channel.h:154-198 | Ready-set model: close wakes all senders and then all receivers, each in the order in which they wait, with a pin while there are objects without one |
| ChannelModel.GrantKeeps | cort_channel.h:91-97 | In the middle of a push, at the moment a receiver is woken, pins are grants, pins do not exceed objects, and delivery is in order |
| ChannelModel.PopKeeps | cort_channel.h:122-139 | A pop that leaves no room wakes the one sender for whom the bound would otherwise fail |
| ChannelModel.RepayUpToIs | cort_channel.h:48-52 | The queued senders are woken in order, as many as there is new room for |
| ChannelModel.TwoItemsOverpin | cort_channel.h:85-97 | An input that shows why consumer safety needs single items: two waiting receivers, two items at once, and a receiver that pops and waits again leave a pin without an object |
| ChannelModel.NestedPushOverblocks | cort_channel.h:85-109 | An input that shows why the producer bound excludes nested pushes: two senders are blocked for one object |
| Channel.CortChannel.TryResume | cort_channel.h:96 | At every wake-up, whatever legal operations the woken coroutine and those it wakes perform at once, to any depth, the invariants of the channel hold when it returns |
| Channel.CortChannel.AfterPush | cort_channel.h:85-109 | Under re-entry: consumer safety after single-item pushes, the producer bound unless pushes were nested, FIFO delivery; the first waiting receiver is the first to be woken; the push blocks exactly if the objects then exceed the buffer size, and then its producer is the newest blocked sender; without re-entry, the state of the ready-set model |
| Channel.CortChannel.Push | cort_channel.h:247-253 | The item goes in at the back unless the channel is closed; a push to a closed channel never blocks |
| Channel.CortChannel.Pop | cort_channel.h:122-139 | The oldest object leaves with one pin, and the invariants hold through the wake-up of a sender; unless there is room, the newest or else first sender is woken next |
| Channel.CortChannel.Get | cort_channel.h:230-235 | A consumer that holds a pin of an open channel finds the oldest item not yet popped |
| Channel.CortChannel.WaitPopable | cort_channel.h:62-77 | A receiver waits exactly if the channel is open and all objects are pinned, and then it is the last of the waiting receivers; otherwise it gets a pin at once |
| Channel.CortChannel.SetBufferSize | cort_channel.h:39-56 | Raising the size under re-entry keeps the invariants; without it, it comes to the state that ResizeEffect describes |
| Channel.CortChannel.Close | cort_channel.h:154-198 | Close terminates under re-entry with nobody left waiting, everybody woken exactly once and nobody starting to wait, provided the woken coroutines do not set the buffer size |
| SendModel.RunConserves | net/cort_tcp_ctrler.cpp:338-393 | Over every run of queueing, short writes and refused writes without a clear: the bytes on the wire followed by the bytes still queued are the contents of the buffers that were taken into the queue, in order |
| SendModel.ClearConserves | net/cort_tcp_ctrler.h:108-119 | A clear gives up what is queued; from then on the same holds, after the bytes already on the wire, for the buffers added later |
| SendModel.RunKeeps | net/cort_tcp_ctrler.h:108-178 | Over every run, clears included: after the destructor the addresses freed are exactly the starts of the blocks the queue allocated, each once, so borrowed memory is never freed |
| SendModel.AcceptedIsAdded | net/cort_tcp_ctrler.h:131-178 | What the queue accounts for is what was added to it: a full queue and the null address add nothing, and everything else is added whole |
| SendModel.SentKeeps | net/cort_tcp_ctrler.cpp:359-383 | A write of n bytes moves exactly n bytes from the queue to the wire; the queue is empty exactly if that was all of it |
| SendModel.WireIsPrefix | net/cort_tcp_ctrler.cpp:359-383 | What the socket has taken is always a prefix of what was queued |
| SendModel.ClearFreesAll | net/cort_tcp_ctrler.h:108-119 | Clear frees every block the queue ever allocated that was not freed before, once and at its start, and nothing else |
| SendQueue.SendBufferCtrl.Advance | net/cort_tcp_ctrler.cpp:359-383 | The loop over the arrays, with its nested move to the front, leaves exactly the unsent entries in the first slots |
| SendQueue.SendBufferCtrl.TrySend | net/cort_tcp_ctrler.cpp:338-393 | Finished exactly when nothing is queued; of an accepted write exactly n bytes reach the wire, which stays a prefix of what was queued; a blocked or failed write changes nothing |
| SendQueue.SendBufferCtrl.MoveAhead | net/cort_tcp_ctrler.cpp:373-379 | The entries from a later slot on come to the front in order and are terminated |
| SendQueue.SendBufferCtrl.Clear | net/cort_tcp_ctrler.h:108-119 | The arrays show an empty queue, the wire is unchanged, and the addresses freed are exactly the starts of the blocks the queue allocated |
| SendQueue.SendBufferCtrl.SetSendBuffer | net/cort_tcp_ctrler.h:131-144 | The buffer is the new last entry, borrowed, and its bytes are due; it is refused, and nothing changes, when all three slots are taken |
| SendQueue.SendBufferCtrl.AllocSendBuffer | net/cort_tcp_ctrler.h:146-160 | A new block is the new last entry, owned and unmoved; the call is refused, and nothing changes, when all three slots are taken |
| SendQueue.SendBufferCtrl.CopySendBuffer | net/cort_tcp_ctrler.h:162-178 | A new block with a copy of the bytes is the new last entry; the call is refused, and nothing changes, when all three slots are taken |
| SendQueue.SendBufferCtrl.GetFreeIndex | net/cort_tcp_ctrler.h:121-129 | The first free slot is the number of queued buffers |
| SendQueue.SendBufferCtrl.Free | net/cort_tcp_ctrler.h:113-116 | Only the start of a live block is ever passed to free |
| PoolModel.RunKeepsSeats | net/cort_tcp_ctrler.cpp:101-215 | A run of park, take, expire and bulk clear goes well throughout, without touching a missing pool or writing past a vector and with every connection seated, if and only if no connection is parked twice and every expiry meets the condition of RemoveExactly; then each pooled connection is in exactly one vector, under its own key, at the index it remembers, and no vector is empty |
| PoolModel.RemoveExactly | net/cort_tcp_ctrler.cpp:101-127 | remove_keep_alive has an outcome and leaves the pool right if and only if there is a pool, and there is no vector for the key the connection remembers unless the connection is in the pool at the place it remembers |
| PoolModel.TakenThenNotified | net/cort_tcp_ctrler.cpp:101-215 | An input: taking undoes parking, and a notification of the connection just taken writes past the end of its vector if others are parked under its key, and dereferences the null pool if nothing is parked at all |
| PoolModel.NotifiedDropsAnother | net/cort_tcp_ctrler.cpp:101-215 | An input: if another connection was parked in the place of a taken one, a notification of the taken one drops the other from its vector |
| PoolModel.DoExactly | net/cort_tcp_ctrler.cpp:101-215 | Each operation goes well if and only if it is guarded; parking a pooled connection again never does |
| PoolModel.DisplaceKeeps | net/cort_tcp_ctrler.cpp:108-113 | It takes out that connection and no other, and the one that moved is at its new seat |
| PoolModel.PopManyCounts | net/cort_tcp_ctrler.cpp:629-634 | A bulk clear takes min(count, size) connections |
| PoolModel.PopManyBuckets | net/cort_tcp_ctrler.cpp:629-634 | It takes them from the end of one vector and leaves all others alone |
| PoolModel.ExpireEffect | net/cort_tcp_ctrler.cpp:101-127 | A pooled connection that is notified leaves its vector, the last connection of that vector has its seat, and every other vector and seat is as before |
| PoolModel.ClearEffect | net/cort_tcp_ctrler.cpp:600-646 | A bulk clear cuts min(count, size) connections off the end of one vector, which goes when it is empty, and leaves the others alone |
| KeepAlivePool.Pool.Park | net/cort_tcp_ctrler.cpp:166-186 | The connection is referenced once more, remembers its key, its index and its callback, and is stored last under its key while the other vectors stay; the pool is right afterwards exactly if the connection was not in it before |
| KeepAlivePool.Pool.Take | net/cort_tcp_ctrler.cpp:188-215 | The last connection of the key comes out with one reference less, and the others stay, or nothing comes out if there is none; the pool goes with its last connection |
| KeepAlivePool.Pool.Expire | net/cort_tcp_ctrler.cpp:101-127 | The notification of any connection, in the pool or not: it says whether the code has an outcome, follows the model if so, and leaves the pool right exactly under the condition of RemoveExactly; a connection in a vector's place is closed and loses one reference, which deletes it exactly if that was the last; one in the pool goes as ExpireEffect says; and one without a vector is left alone |
| KeepAlivePool.Pool.ClearKeepAlive | net/cort_tcp_ctrler.cpp:600-646 | An unkeyed clear takes min(count, size) from a largest vector, a keyed one from that of the key; the connections taken are closed, not deleted, and keep their references |
| KeepAlivePool.Pool.Largest | net/cort_tcp_ctrler.cpp:606-626 | No vector is larger than the one chosen |
| KeepAlivePool.Client.Release | time/cort_timeout_waiter.h:84-93 | Releasing deletes exactly at the last reference |
| PollModel.DispatchSafe | time/cort_timeout_waiter.cpp:404-418 | Over every run of any operations, deliveries and batches: the dispatch invariant holds throughout if and only if every destroyed waiter had a descriptor or was unknown to the kernel; then a slot still to be delivered belongs to a waiter that is alive, known to the kernel and points back at it, nobody is resumed twice in a batch or after having been cancelled, and everyone in a finished batch was resumed or cancelled |
| PollModel.DestroyExactly | time/cort_timeout_waiter.cpp:541-543 | Destroying a waiter keeps the invariant if and only if it has a descriptor or the kernel does not know it |
| PollModel.DestroyedStaysKnown | time/cort_timeout_waiter.cpp:556-620 | An input: set_poll_request(0) on a registered waiter, remove_cort_fd and the destructor leave the kernel with a deleted waiter, which the next batch may contain |
| PollModel.NeverZeroesGuards | time/cort_timeout_waiter.cpp:404-418 | In runs that never set the request of a registered waiter to 0 every destruction is safe, and so is dispatch |
| PollModel.CountExactly | time/cort_timeout_waiter.cpp:556-620 | Over every run that starts with no idle registration, epollfd_total_count equals the number of waiters with a request after every step if and only if no step sets the request of a waiter with a descriptor and a request to 0 |
| PollModel.ZeroThenClose | time/cort_timeout_waiter.cpp:556-615 | Setting a registered request to 0 and closing the descriptor loses a registration, and the count keeps it |
| PollModel.LeakStays | time/cort_timeout_waiter.cpp:452-457 | Once a registration is lost, the count exceeds the number of requests in every later run |
| PollModel.RequestEffect | time/cort_timeout_waiter.cpp:556-577 | A waiter with a descriptor gets the request; the kernel knows it afterwards if the request asks for anything, and the counter grows by one exactly if the kernel did not know it before |
| PollModel.CloseEffect | time/cort_timeout_waiter.cpp:600-615 | After closing there is no descriptor and no request; an open one leaves the kernel and its event of the batch is dropped, and the counter shrinks exactly if there was a request |
| PollModel.StopEffect | time/cort_timeout_waiter.cpp:551-554 | A stopped waiter has no descriptor, no request and no event in the batch, and the kernel does not know its descriptor any more |
| PollModel.DeliverEffect | time/cort_timeout_waiter.cpp:411-414 | The waiter of the next slot is resumed exactly if its slot was not cleared, and points at no slot when it is |
| PollModel.FetchEffect | time/cort_timeout_waiter.cpp:404-407 | Each waiter of a new batch points at its own slot, and the others point where they did |
| PollDispatch.EventLoop.DispatchBatch | time/cort_timeout_waiter.cpp:404-418 | For a batch of any waiters the kernel knows and any behaviour of the resumed coroutines: each is resumed at most once, each is resumed or cancelled, none is resumed after being cancelled |
| PollDispatch.EventLoop.ResumeOnPoll | time/cort_timeout_waiter.cpp:411-414 | One delivery, with any operations of the resumed coroutine, keeps the batch consistent; the waiter is resumed exactly if its slot was not cleared |
| PollDispatch.EventLoop.SetPollRequest | time/cort_timeout_waiter.cpp:556-577 | A waiter with a descriptor has the request afterwards; the kernel knows it if the request asks for anything, the counter grows by one exactly if the kernel did not know it before, and the batch stays consistent |
| PollDispatch.EventLoop.RemovePollRequest | time/cort_timeout_waiter.cpp:579-598 | The waiter is unregistered and uncounted, and its event in the batch can no longer be delivered |
| PollDispatch.EventLoop.CloseCortFd | time/cort_timeout_waiter.cpp:600-615 | The descriptor is gone, the waiter is unknown to the kernel, its event in the batch can no longer be delivered, and the counter follows exactly if there was a request |
| PollDispatch.EventLoop.RemoveCortFd | time/cort_timeout_waiter.cpp:617-620 | The request is removed and the descriptor given up without closing it |
| PollDispatch.EventLoop.DeleteWaiter | time/cort_timeout_waiter.cpp:541-543 | The waiter is closed and gone; the kernel is left with a pointer to it exactly if it knew the waiter and there was no descriptor |
| PollDispatch.EventLoop.ResumeOnTimeout | time/cort_timeout_waiter.cpp:521-529 | A timed-out waiter has no pending event when its coroutine runs |
| PollDispatch.EventLoop.ResumeOnStop | time/cort_timeout_waiter.cpp:551-554 | A stopped waiter is closed and has no pending event when its coroutine runs |

## Left out

- Join.Runtime.Resume: does not model `last_resumer`, `then` and `on_finish` hooks, and coroutines that delete themselves in their callback.
- Join.Runtime.RunAll: coroutine objects are entries of a sequence, so aliasing between objects is not captured; leaves are resumed one after the other, never while another one is being started.
- WaitN.AwaitAnyN: assumes that no awaited coroutine finishes inside the nested resumption of the parent; the parent's own wait count is not involved and not modelled.
- TimerStore.CortTimer.AddTimer: deadlines are unbounded integers, so overflow of a deadline is not modelled; allocation never fails.
- TimerStore.CortTimer.RemoveTimer: list nodes are identified by a number instead of an address and an iterator.
- TimerIndex.AsWrittenExactly: the clock is an argument that does not go back.
- RingQueue.PodQueue.constructor: an initial capacity of 0, for which the first push writes outside the buffer, is left out.
- RingQueue.RunQueue: initial capacities and runs are bounded by 2^62 so that indices stay in range; elements are plain values and allocation never fails.
- Channel.CortChannel.Close: woken coroutines do not set the buffer size, since otherwise close need not terminate.
- Channel.CortChannel.AfterPush: a push of zero events is left out; the number of stored objects stays below the closed-buffer constant.
- SendQueue.SendBufferCtrl.AllocSendBuffer: the content of the new buffer is an argument that stands for what the caller writes into it before the next write; buffer sizes are not negative and `malloc` does not return null.
- SendQueue.SendBufferCtrl.TrySend: an interrupted call is repeated with the same arguments and shows only by its final answer; timeouts and poll events before the write are left out.
- KeepAlivePool.Pool.ClearKeepAlive: which of several largest vectors is taken (the source takes the first in key order) is left open.
- PollModel.CountExactly: `epoll_ctl` fails only for a registration that exists or a removal of one that does not; each open descriptor belongs to one waiter.
- PollDispatch.EventLoop.DispatchBatch: resumed coroutines do not delete a waiter without descriptor that the kernel still knows, for which dispatch is not safe (`PollModel.DestroyedStaysKnown`).
- SendModel.RunConserves: does not speak of runs with a clear, which gives up bytes; `SendModel.ClearConserves` says what holds from the clear on.
- `try_push`, `try_get`, and `awake_all` on a channel that stays open, where a woken receiver may have no pin and still see an object.
- `cort_wait_range_any`, which sets the wait count to all pending coroutines and does not meet the any-n claim.
- `cort_shared_future`, whose continuation resumes a parent that `resume` has already saved.
- CO_GOTO, CO_LABEL, CO_PREV, CO_AGAIN, CO_RESTART, CO_EXIT, CO_AWAIT_THIS and the `_AGAIN` awaits: jumps between states that have no structured meaning.
- Destruction of the timer index while timers are live, and the outer event loop around the batch.
- `try_recv` and the growth of receive buffers, connecting, listening, HTTP.
- `stackful/`, `cort_repeater`, `cort_lambda.h`, display functions and error-string tables.
- Several threads: all state of the runtime is per thread.
