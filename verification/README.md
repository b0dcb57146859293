# ghOSt user-space core: a Dafny model

This project models the data structures and protocols at the heart of the ghOSt
user-space library and proves what its comments, checks and tests promise of them.
`dafny verify dfyconfig.toml` checks all of it.

**The array-backed AVL tree** (`AvlShape`, `AvlHeap`, `AvlOrder`, `AvlSearch`,
`AvlRotations`, `AvlRetrace`, `AvlUnlink`, `AvlUpdate`, `AvlTree`, `AvlRuns`).
`AvlTrees.AvlTree` is an array of node records rewritten in place, next to the fields of
`struct avl_tree`. Ghost fields name the tree and the orphan list that the records
represent. `Valid()` says that every child and parent id, every stored balance, the
cached ends, the orphan links and the `is_orphan` flags are exact, that the tree is
sorted by key and, among equal keys, by arrival, and that its height is at most the cap.
The two retrace loops work on a zipper: while one is under way the array is an AVL tree
except for one subtree that is a level too high or too low for the balances above it.

**The O(1) scheduler** (`O1RunQueue`, `O1State`, `O1Events`, `O1Meanings`, `O1Scheduler`,
`O1Laws`, `FairShares`, `O1Runs`, `O1Starvation`). The run queues are classes whose bitmaps
index the priority buckets; the handlers are the methods of `O1Schedulers.O1Scheduler`.
`O1Events` builds, as a value, the state after each event and proves what every event keeps;
each handler is proved to reach exactly that state. `O1Meanings` says in plain terms, field
by field, which state that is, and `O1Laws` what follows for whole runs. Every `CHECK` on
modelled state is an `assert` or a precondition discharged by the callers; the one on
`AssociateTask` asks the kernel and is not modelled. The kernel is a nondeterministic
environment: a run is any sequence of events that are legal in the state they meet, commits
succeed or fail freely, and the clock never goes back. Slice preemption clears a CPU's
current task while the old one stays on-CPU until its message arrives, so the invariant has a
fourth place for a live task, "displaced", and not one on-CPU task per CPU.

**The shared-memory protocols** (`PrioStream`, `Seqcount`, `Notifications`, `AgentRpc`).
Each is a state machine whose steps are the single atomic accesses and futex calls of the
code. A list of steps is a schedule; a step that is not possible does nothing, so "for
every list of steps" is "for every interleaving". `compare_exchange_weak` may fail for no
reason, sleepers may wake for no reason, and the 32-bit counters wrap.

**CPU bitmaps** (`Bits`, `CpuMaps`) against the plain set of ids, and the round-robin
assignment built on the iterator. Machine words are natural numbers below 2^64 with the
bitwise operators defined bit by bit.

**Array lists** (`ArrLists`): every operation of `lib/queue.bpf.h` against the sequence
operation it stands for.

Five promises turned out not to hold as they stand, and each is stated with its exact
condition and a witness:

- `arr_list_concat` appends if and only if the second list has elements or the first has
  none; otherwise the first list loses its tail (`ArrLists.Arena.Concat`).
- The update stream loses no mark in any run with at most b additions to `scrape_all`
  between scrapes if and only if b is below 2^31 (`PrioStream.SafeBound`, with the losing
  run in `PrioStream.WrapLosesUpdate`).
- The sequence lock can accept a torn copy of a read with n writes begun during it if and
  only if n is a positive multiple of 2^31 (`Seqcount.TearsExactly`, with the runs in
  `Seqcount.WrapTearsRead`).
- An RPC returns the response to its own request, except that a refusal sets the code
  alone and leaves the data of the response before it (`AgentRpc.OwnResponse`,
  `AgentRpc.StaleData`).
- A task picked at time t0 with slice r is asked to leave by a tick at or after t0 + r, and
  not before, if and only if no pass since has kept it as the current task with a preemption
  pending or by a commit later than its last charge; otherwise the time that counts is t0 + r
  plus what those passes have added (`O1Laws.TickLaw`, `O1Laws.PostponedExactly`). Such a
  commit restarts the task's clock without charging for the time before it; with no lag
  `O1Laws.Uncharged` is a run in which a task keeps its whole slice for ever.

Modelling notes. Slot 0 of every array is unused, so that ids need no offset. Consecutive
writes to the fields of one record are one array write. An insertion into an empty tree
goes through the general retrace, which does nothing there. `avl_node.key` is a natural
number. Scheduler state kept per task or per CPU in the source is kept in maps and
sequences of records; AssignCpu's iterator is an index into the list of CPU ids, which
`CpuMaps` shows to be what the bitmap iterator visits. In the RPC model the parent stands
for whichever thread holds `rpc_mutex_`.

## Model

| member | source | states |
|---|---|---|
| AvlShape.AvlMinimumSize | lib/avl.bpf.h:117-122 | an AVL tree of height h has at least Fib(h+2)-1 nodes |
| AvlShape.SixtyFourKLeavesRoom | lib/avl.bpf.h:117-122 | a tree that leaves out one of at most 65536 elements has height below 23 |
| AvlRotations.SingleRotation | lib/avl.bpf.h:551-598 | a single rotation, in either direction, leaves a linked subtree with exact balances over the same nodes |
| AvlRotations.DoubleRotation | lib/avl.bpf.h:654-732 | so does a double rotation |
| AvlRotations.RotatedOrder | lib/avl.bpf.h:517-550 | no rotation changes the in-order sequence |
| AvlRotations.RotatedHeight | lib/avl.bpf.h:1247-1262 | a rotation lowers the too-deep subtree by one level unless its child was level, and which rotation is taken follows the child's balance |
| AvlRotations.RotationAt | lib/avl.bpf.h:930-964 | hooking the rotated subtree below x's parent, or at the root, keeps the path above linked and touches nothing else |
| AvlRetrace.GrowUp | lib/avl.bpf.h:904-966 | insert case 3: x was level, its subtree grows, and the retrace goes on one level up |
| AvlRetrace.GrowAbsorb | lib/avl.bpf.h:904-966 | insert case 1: the growth is on x's light side; the whole array is an AVL tree again |
| AvlRetrace.GrowRotate | lib/avl.bpf.h:904-966 | insert case 2: any rotation restores the old height, so the retrace may stop |
| AvlRetrace.ShrinkAbsorb | lib/avl.bpf.h:1264-1358 | delete: a level x absorbs the loss |
| AvlRetrace.ShrinkUp | lib/avl.bpf.h:1264-1358 | delete: a loss on the heavy side levels x and lowers its subtree |
| AvlRetrace.ShrinkRotate | lib/avl.bpf.h:1264-1358 | delete: a rotation absorbs the loss exactly when z was level |
| AvlUnlink.UnlinkOne | lib/avl.bpf.h:1149-1162 | a node with a free child slot is replaced by its other child, which leaves one subtree a level too low |
| AvlUnlink.UnlinkTwo | lib/avl.bpf.h:1163-1214 | both two-children cases leave an AVL tree in which the subtree that took next's place is one level too low |
| AvlUnlink.UnlinkTwoFrame | lib/avl.bpf.h:1163-1214 | they touch only the path above, the two subtrees and next |
| AvlTrees.AvlTree.RotateLeft | lib/avl.bpf.h:551-597 | the array becomes the one that SingleRotation proves linked, balanced and in the same order |
| AvlTrees.AvlTree.RotateRight | lib/avl.bpf.h:599-640 | the mirror image of the left rotation, on the whole array |
| AvlTrees.AvlTree.RotateRightLeft | lib/avl.bpf.h:654-732 | the array becomes the one that DoubleRotation proves linked, balanced and in the same order |
| AvlTrees.AvlTree.RotateLeftRight | lib/avl.bpf.h:734-790 | the mirror image of the right-left rotation, on the whole array |
| AvlTrees.AvlTree.RetraceInsert | lib/avl.bpf.h:904-966 | the bounded loop always reaches absorption, a rotation or the root; order, links and balances are exact and only path records change |
| AvlTrees.AvlTree.RetraceDelete | lib/avl.bpf.h:1264-1358 | the same for the delete loop, through non-absorbing rotations; the tree does not grow |
| AvlTrees.AvlTree.Lookup | lib/avl.bpf.h:383-402 | finds a node with the key if and only if some node in the tree has it, duplicates included, and never for want of iterations |
| AvlTrees.AvlTree.MinNode | lib/avl.bpf.h:404-416 | the first node of a subtree in order, 0 if and only if it is empty |
| AvlTrees.AvlTree.MaxNode | lib/avl.bpf.h:436-448 | the last node of a subtree in order |
| AvlTrees.AvlTree.Next | lib/avl.bpf.h:468-490 | the in-order successor, or 0 |
| AvlTrees.AvlTree.Prev | lib/avl.bpf.h:492-514 | the in-order predecessor, or 0 |
| AvlTrees.AvlTree.FindSlot | lib/avl.bpf.h:808-844 | the search ends in the hole where the key belongs, everything left of it at most the key and everything right above it; it runs out of room exactly when the search path is as long as the cap |
| AvlTrees.AvlTree.InsertOrphan | lib/avl.bpf.h:312-330 | the array becomes the one that PushListed proves to hold the longer list |
| AvlOrder.PushListed | lib/avl.bpf.h:312-330 | pushing leaves a list that is well linked in both directions, with the new orphan first |
| AvlTrees.AvlTree.RemoveOrphan | lib/avl.bpf.h:332-357 | the array becomes the one that RemoveListed proves to hold the shorter list |
| AvlOrder.RemoveListed | lib/avl.bpf.h:332-357 | unlinking an orphan anywhere in the list leaves the old list without it, well linked in both directions |
| AvlTrees.AvlTree.PopFirstOrphan | lib/avl.bpf.h:359-381 | null exactly when there is no orphan, else the first one, unlinked |
| AvlUpdate.InsertGood | lib/avl.bpf.h:968-993 | after an insertion the order is stable sorted order, the cached ends are the leftmost and rightmost nodes with their keys, and flags and orphan list agree |
| AvlUpdate.DeleteGood | lib/avl.bpf.h:1125-1147 | after a deletion the cached ends are those of the remaining nodes, 0 if and only if there are none |
| AvlTrees.AvlTree.Insert | lib/avl.bpf.h:793-994 | in order, the node comes just after the last key not above its own; if and only if the search path has reached the cap it becomes the first orphan and the tree stays as it is; nothing else is lost or added |
| AvlTrees.AvlTree.DeleteFromTree | lib/avl.bpf.h:1125-1358 | before the orphan retry: the old order without the node, every link, balance and cached end exact |
| AvlTrees.AvlTree.RetryOrphan | lib/avl.bpf.h:1360-1375 | the first orphan enters the tree where its key belongs if its path has room, else it is first in the list again |
| AvlTrees.AvlTree.Delete | lib/avl.bpf.h:1110-1376 | exactly the node is gone; an orphan is taken off the list; from the tree, the order is the old one without the node, and the first orphan enters in the place of its key exactly when its search path in the tree without the node is below the cap |
| AvlTrees.AvlTree.PopMin | lib/avl.bpf.h:1378-1387 | null exactly when nothing is stored, else the first element in order, which is deleted |
| AvlTrees.AvlTree.PopMax | lib/avl.bpf.h:1389-1398 | the same for the last element |
| AvlTrees.AvlTree.ReplaceNode | lib/avl.bpf.h:1007-1034 | another id takes a node's place below its parent or at the root, and nothing else changes |
| AvlRuns.PlacedIsStable | lib/avl.bpf.h:808-844 | the place found by the search is that of stable insertion into a sorted list |
| AvlSearch.SearchDepthIs | lib/avl.bpf.h:808-861 | the number of nodes on the search path for a key is the length of the path to any hole where the key belongs, whatever subtree is there |
| AvlSearch.SearchHole | lib/avl.bpf.h:808-861 | a sorted tree has such a hole at the end of the search path |
| AvlRuns.RoomForAll | lib/avl.bpf.h:817-861 | with cap 23 and at most 65536 elements the search path of an absent element is below the cap |
| AvlRuns.Run | lib/avl.bpf.h:793-1398 | any run of inserts, deletes and pops on at most 65536 elements creates no orphan, keeps the order of the stable sorted list, and pops what the list would |
| AvlRuns.RunCapped | lib/avl.bpf.h:312-381 | any run under any cap: an element enters at the place of its key if and only if the path to the hole there is shorter than the cap, and else is the first orphan; a deletion or pop takes exactly its element and gives the first orphan one such try; pops take the ends of the order; what was inserted and not removed is in exactly one of tree and orphan list, once, is_orphan says which, and the height never exceeds the cap |
| AvlRuns.Drain | lib/avl.bpf.h:1378-1387 | repeated pop_min on an orphan-free tree returns keys in non-decreasing order, equal keys in order of arrival |
| O1RunQueue.PrioArray.Push | schedulers/o1/o1_scheduler.h:83-133 | one bucket gains the task at the chosen end; bit i is set if and only if bucket i is not empty |
| O1RunQueue.PrioArray.Pop | schedulers/o1/o1_scheduler.h:83-133 | the first task in (priority, position) order, found by count-trailing-zeros, or null exactly when the array is empty |
| O1RunQueue.PrioArray.Erase | schedulers/o1/o1_scheduler.h:83-133 | true exactly when the task is in the bucket of its priority, which then loses its first occurrence only |
| O1RunQueue.PrioArray.Size | schedulers/o1/o1_scheduler.h:83-133 | the number of tasks over all buckets |
| O1RunQueue.FlatPopped | schedulers/o1/o1_scheduler.h:83-133 | popping takes the first task and keeps the order of all others |
| O1RunQueue.NextOrder | schedulers/o1/o1_scheduler.cc:496-514 | Dequeue takes the first task in (array, priority, position) order, across the swap, and keeps the order of all others |
| O1RunQueue.WithOrder | schedulers/o1/o1_scheduler.cc:454-472 | Enqueue keeps the order of all others |
| O1RunQueue.WithoutOrder | schedulers/o1/o1_scheduler.cc:516-532 | Erase takes exactly the task and keeps the order of all others |
| O1RunQueue.PutBack | schedulers/o1/o1_scheduler.cc:396-430 | putting the task just dequeued back at the front of its bucket restores the order, even across a swap |
| O1RunQueue.O1Rq.Enqueue | schedulers/o1/o1_scheduler.cc:454-472 | the active array while some slice remains, else a full slice and the expired array |
| O1RunQueue.O1Rq.Dequeue | schedulers/o1/o1_scheduler.cc:496-514 | null exactly when both arrays are empty, else the first task in order; its CHECK cannot fire |
| O1RunQueue.O1Rq.Erase | schedulers/o1/o1_scheduler.cc:516-532 | the task leaves the array that holds it; the final CHECK(false) cannot be reached |
| O1State.FourPlaces | schedulers/o1/o1_scheduler.cc:109-434 | in every state between events a live task is exactly one of blocked, queued once in the bucket of its priority on its own CPU with a remaining time in (0, 10 ms], current (with a used-up slice if a preemption is pending), or displaced with its slice used up |
| O1State.NothingStale | schedulers/o1/o1_scheduler.cc:175-201 | no queue and no current refers to a freed task or to a task of another CPU |
| O1State.EnqueueInv | schedulers/o1/o1_scheduler.cc:454-472 | Enqueue of the task in hand keeps the invariant |
| O1State.DequeueInv | schedulers/o1/o1_scheduler.cc:496-514 | Dequeue hands over a queued task of that CPU with slice left and keeps the invariant |
| O1State.EraseInv | schedulers/o1/o1_scheduler.cc:516-532 | Erase takes the only occurrence of the task and keeps the invariant |
| O1State.OffInv | schedulers/o1/o1_scheduler.cc:311-336 | TaskOffCpu keeps the invariant for current, displaced and switched-to tasks |
| O1State.OnInv | schedulers/o1/o1_scheduler.cc:338-350 | TaskOnCpu keeps the invariant, and is never called while another task is current |
| O1State.TickInv | schedulers/o1/o1_scheduler.cc:276-308 | a pending preemption with a current task means that its slice is used up |
| O1State.SettleInv | schedulers/o1/o1_scheduler.cc:357-375 | clearing current for a preemption leaves a displaced task, not a lost one |
| O1State.EnqueueRefills | schedulers/o1/o1_scheduler.cc:454-472 | an enqueue with no slice left lands in the expired array with a full slice |
| O1State.OrderOnce | schedulers/o1/o1_scheduler.cc:454-532 | a task occurs in a run queue's order exactly once if it is queued there, else not at all |
| O1Events.HandledKept | schedulers/o1/o1_scheduler.cc:130-434 | every legal event keeps the invariant, drops no displaced task, and leaves the record and the place in every queue of all tasks but its subject as they were |
| O1Events.NextKept | lib/scheduler.h:497-618 | the same for an event at a later time |
| O1Meanings.NewMeans | schedulers/o1/o1_scheduler.cc:130-148 | a new task has priority 120 + nice and a full slice; if runnable, it is queued at the end of its bucket in the active array of the CPU the round robin has come to; nothing else changes |
| O1Meanings.WakeupMeans | schedulers/o1/o1_scheduler.cc:150-173 | a woken task is queued on its own CPU, or on the next of the round robin if it has none, at the front unless deferrable, as active if it has slice left and otherwise as expired with a full slice; nothing else changes |
| O1Meanings.DepartedMeans | schedulers/o1/o1_scheduler.cc:175-195 | a departed task is gone from the map, from its CPU and from its queue, whose order is otherwise the same |
| O1Meanings.DeadMeans | schedulers/o1/o1_scheduler.cc:197-201 | a dead task is gone from the map, and nothing else changes |
| O1Meanings.BlockMeans | schedulers/o1/o1_scheduler.cc:219-230 | a task that blocks or switches away is charged the time since its last charge, blocked, and no longer current; one that was not on a CPU is not charged |
| O1Meanings.LeaveMeans | schedulers/o1/o1_scheduler.cc:203-248 | a preempted task or one that yields is charged, no longer current, and queued on its own CPU: as active with what is left of its slice, else as expired with a full one; a preempted one is marked and in front |
| O1Meanings.PriorityMeans | schedulers/o1/o1_scheduler.cc:250-269 | only the priority changes; a queued task moves to the end (or, boosted, the front) of its new bucket in the active array, even from the expired one |
| O1Meanings.TickMeans | schedulers/o1/o1_scheduler.cc:276-308 | a tick charges the current task and asks for a preemption exactly when one was asked for or the slice is used up |
| O1Meanings.PassPreempts | schedulers/o1/o1_scheduler.cc:352-430 | with a preemption pending while others wait, a pass displaces the current task, untouched and in no queue, and makes the first one waiting current, or leaves it first if the commit fails |
| O1Meanings.PassNext | schedulers/o1/o1_scheduler.cc:376-430 | with no current task, or one displaced, the first one waiting becomes current, or stays first with the order unchanged if the commit fails |
| O1Meanings.PassKeeps | schedulers/o1/o1_scheduler.cc:366-430 | a pass with nobody waiting, or no preemption pending, keeps the current task, with a new slice in the first case if a preemption was pending; a commit restarts its clock, and a failed one charges it and puts it at the front of its bucket |
| O1Meanings.PassIdles | schedulers/o1/o1_scheduler.cc:352-381 | a boosted pass and one with nobody to run only settle the pending preemption |
| O1Events.HeadKept | schedulers/o1/o1_scheduler.cc:376-430 | a failed commit of a dequeued task leaves the queue's order as it was |
| O1Events.DisplacedExpires | schedulers/o1/o1_scheduler.cc:357-375 | over any run, a displaced task stays spent, whatever messages come, until it is enqueued in the expired array with a full slice |
| O1Schedulers.O1Scheduler.TaskNew | schedulers/o1/o1_scheduler.cc:130-148 | the state becomes the one that O1Meanings.NewMeans describes field by field; a known task changes nothing |
| O1Schedulers.O1Scheduler.TaskRunnable | schedulers/o1/o1_scheduler.cc:150-173 | the state becomes the one that O1Meanings.WakeupMeans describes |
| O1Schedulers.O1Scheduler.TaskDeparted | schedulers/o1/o1_scheduler.cc:175-195 | the state becomes the one that O1Meanings.DepartedMeans describes |
| O1Schedulers.O1Scheduler.TaskDead | schedulers/o1/o1_scheduler.cc:197-201 | a blocked task is freed, and nothing else changes |
| O1Schedulers.O1Scheduler.TaskYield | schedulers/o1/o1_scheduler.cc:203-217 | charged, off the CPU and queued again: the state that O1Meanings.LeaveMeans describes |
| O1Schedulers.O1Scheduler.TaskBlocked | schedulers/o1/o1_scheduler.cc:219-230 | charged, off the CPU and blocked: the state that O1Meanings.BlockMeans describes |
| O1Schedulers.O1Scheduler.TaskPreempted | schedulers/o1/o1_scheduler.cc:232-248 | charged, off the CPU, marked, boosted and queued again: the state that O1Meanings.LeaveMeans describes |
| O1Schedulers.O1Scheduler.TaskPriorityChanged | schedulers/o1/o1_scheduler.cc:250-269 | the state becomes the one that O1Meanings.PriorityMeans describes |
| O1Schedulers.O1Scheduler.CpuTick | schedulers/o1/o1_scheduler.cc:276-308 | the current task is charged, and a preemption is pending exactly when one was or that used up its slice: the state that O1Meanings.TickMeans describes |
| O1Schedulers.O1Scheduler.Pass | schedulers/o1/o1_scheduler.cc:352-434 | the new state of a whole scheduling pass, which O1Meanings.PassPreempts, PassNext, PassKeeps and PassIdles describe case by case |
| O1Schedulers.O1Scheduler.RunNext | schedulers/o1/o1_scheduler.cc:376-434 | a commit that succeeds makes the first task in order current; one that fails puts it back as HeadKept describes; the whole new state |
| O1Schedulers.O1Scheduler.Handle | lib/scheduler.h:497-618 | every legal event takes the state to the one the reference gives for it, and the invariant holds there; messages for unknown tasks are dropped |
| O1Schedulers.O1Scheduler.Run | schedulers/o1/o1_scheduler.cc:109-434 | in every run each legal event does what the reference says and the invariant holds after it; no modelled CHECK fires |
| O1Laws.DeadlineLaw | schedulers/o1/o1_scheduler.cc:30-43 | over any part of any run in which a task stays on its CPU, the time of its last charge plus what remains of its slice changes by the extensions that passes give it, and by nothing else |
| O1Laws.TickLaw | schedulers/o1/o1_scheduler.cc:294-308 | whatever happens after a task is put on its CPU at time t0 with slice r, a tick asks for its preemption if and only if one is asked for already or the time has reached t0 + r plus the extensions |
| O1Laws.SliceEnds | schedulers/o1/o1_scheduler.cc:294-308 | with no pass in between, a preemption is pending if and only if there has been a tick at or after t0 + r |
| O1Laws.LeaveLaw | schedulers/o1/o1_scheduler.cc:311-336 | any event that takes a running task off its CPU leaves it r less the time since t0 plus the extensions, or a full slice if that is nothing and it is queued at once |
| O1Laws.PostponedExactly | schedulers/o1/o1_scheduler.cc:352-410 | the extensions are never negative, and zero if and only if no pass has kept the task with a preemption pending or by a commit later than its last charge |
| O1Laws.Uncharged | schedulers/o1/o1_scheduler.cc:338-410 | for every n, a run of n committed passes and n ticks in which the current task runs for n * (gap + lag), is charged n * lag, and is never asked to leave |
| O1Laws.PlacementLaw | schedulers/o1/o1_scheduler.cc:97-107 | over any run, the k-th task that is given a CPU gets the k-th CPU of the enclave, counting round and round |
| O1Laws.PlacementIsFair | schedulers/o1/o1_scheduler.cc:97-107 | so of k placements over n CPUs each CPU gets floor(k/n) or ceil(k/n) |
| O1Runs.StartAndRun | schedulers/o1/o1_scheduler.cc:97-107 | in every run of a new scheduler the tasks are placed in that way |
| O1Starvation.UnitsIsCeiling | schedulers/o1/o1_scheduler.cc:30-43 | the number of rounds of d that a slice lasts is its ceiling quotient |
| O1Starvation.RoundCloser | schedulers/o1/o1_scheduler.cc:454-514 | a dequeue-charge-enqueue round that does not pick g lowers the bound on g's wait by at least one |
| O1Starvation.NoStarvation | schedulers/o1/o1_scheduler.cc:454-514 | with rounds of at least d and no arrivals, a queued task is dequeued within the active array's ceiling sum, plus one full slice per task if it is expired |
| O1Starvation.NoneTwiceBetweenSwaps | schedulers/o1/o1_scheduler.cc:496-514 | when every round uses up the slice, tasks are served in queue order and none twice between two swaps |
| O1Starvation.InvWell | schedulers/o1/o1_scheduler.cc:454-514 | every state that satisfies the scheduler's invariant is a starting point for the bound |
| O1Starvation.RoundIsScheduled | schedulers/o1/o1_scheduler.cc:352-434 | a round is what the scheduler does on a committed pass followed by a preemption or yield, with the time in between as the charge |
| O1Starvation.NoStarvationAfterRun | schedulers/o1/o1_scheduler.cc:454-514 | the bound holds for every task queued at any point of any run |
| PrioStream.OpenMeans | shared/prio_table.cc:85-140 | an index is open exactly when it has a completed mark that no later return of it, or of kStreamOverflow, covers |
| PrioStream.HonestMeans | shared/prio_table.cc:109-113 | a log is honest exactly when every kStreamNoEntries comes after the covering of all marks completed before its call began |
| PrioStream.NoLostUpdate | shared/prio_table.cc:85-140 | under every interleaving with fewer than 2^31 additions between scrapes, when a call returns kStreamNoEntries every mark completed before it began has been covered |
| PrioStream.NothingDropped | shared/prio_table.cc:85-140 | an uncovered mark is always still in a cell, in scrape_all, or in the consumer's hands |
| PrioStream.MarkAlone | shared/prio_table.cc:85-107 | an undisturbed mark raises scrape_all if that is above zero; if not, its index goes into the first free one of the cells idx, idx + 1, ... idx + retries modulo the capacity, and if none is free scrape_all is raised; nothing else changes |
| PrioStream.AddsAfterTries | shared/prio_table.cc:85-107 | under every interleaving scrape_all is raised only by a mark that has found it above zero, or that has tried all its retries + 1 successive cells in vain |
| PrioStream.FillsNextCell | shared/prio_table.cc:96-104 | under every interleaving a cell is filled only with the index of a mark that has tried the cells before it, from idx on, in vain |
| PrioStream.EveryMarkIsCovered | shared/prio_table.cc:113-140 | any such run can be continued by the consumer alone: the call in progress ends, further calls reach kStreamNoEntries after at most one result per filled cell and one overflow, and then every mark is covered |
| PrioStream.ReturnedWasMarked | shared/prio_table.cc:113-140 | every index returned was marked before |
| PrioStream.WrapLosesUpdate | shared/prio_table.cc:85-107 | a run that never has more than 2^31 additions without a scrape, in which a call returns kStreamNoEntries past an uncovered mark |
| PrioStream.SafeBound | shared/prio_table.cc:85-140 | all runs with at most b additions between scrapes are honest if and only if b is below 2^31 |
| PrioStream.PassedOver | shared/prio_table.cc:123-136 | scans start from cell 0: for every n there is a run without any overflow in which n results come back and the first mark is still uncovered |
| Seqcount.OneWriter | shared/prio_table.h:133-157 | under every interleaving at most one writer is in its section, and write_end's DCHECK holds |
| Seqcount.TryTakesExactly | shared/prio_table.h:146-152 | in any run try_write_begin succeeds exactly when the lock was free at its load and is free at its swap with a multiple of 2^31 writes in between; then the number goes up by one, and otherwise nothing changes |
| Seqcount.BeginTakesExactly | shared/prio_table.h:133-144 | write_begin: the same unless the swap fails for no reason, and a failure leads to another round |
| Seqcount.AcceptsExactly | shared/prio_table.h:159-173 | read_end accepts exactly when no write was under way at read_begin, none is now, and their number in between is a multiple of 2^31 |
| Seqcount.ReadsAreSnapshots | shared/prio_table.h:133-173 | an accepted read with fewer than 2^31 writes begun during it has copied the payload of the last completed write, word for word |
| Seqcount.WrapTearsRead | shared/prio_table.h:159-173 | for every positive multiple of 2^31, a run with that many writes during a read whose accepted copy equals no payload |
| Seqcount.TearsExactly | shared/prio_table.h:159-173 | such a run with n writes exists if and only if n is a positive multiple of 2^31 |
| Notifications.NoLostWakeUp | lib/base.cc:51-86 | for any number of waiters: the CHECK never fails, nobody returns before Notify has set the flag, and nobody sleeps once it has finished |
| Notifications.WaitersReturn | lib/base.cc:70-86 | once Notify has finished, each waiter returns within two steps of its own |
| Notifications.NotifyFinishes | lib/base.cc:51-68 | Notify finishes within seven steps, and seven more for every spurious failure, whatever the waiters do |
| AgentRpc.HandshakeSafe | lib/agent.h:616-629 | over any number of calls: no CHECK fails despite the resets, the slots are never touched from both sides, and the two sides never sleep at the same time |
| AgentRpc.OwnResponse | lib/agent.h:656-708 | calls are served once each, in order, and each returns the response of its own service; a refusal carries -ENODEV and the data of the response before it |
| AgentRpc.StaleData | lib/agent.h:624-626 | a run in which a refused call returns the data of another call's response |
| AgentRpc.NeverStuck | lib/agent.h:616-629 | while a call is in flight one of the two threads can take a step |
| AgentRpc.CallReturns | lib/agent.h:656-708 | a call in flight returns after fewer than 250 steps that do something, of the two threads together and in any interleaving |
| AgentRpc.AlternateReturns | lib/agent.h:656-708 | when the threads take turns, a call returns within 250 turns of each |
| CpuMaps.CpuList.Set | lib/topology.h:376-382 | exactly that id is added |
| CpuMaps.CpuList.Clear | lib/topology.h:385-391 | exactly that id is removed |
| CpuMaps.CpuList.IsSet | lib/topology.h:394-400 | membership |
| CpuMaps.CpuList.Empty | lib/topology.h:220-227 | true exactly when no id is set |
| CpuMaps.CpuList.CountSetCpus | lib/topology.h:236-242 | the number of ids that are set |
| CpuMaps.CpuList.GetNthCpu | lib/topology.cc:53-72 | the n-th id in ascending order, or none when fewer are set |
| CpuMaps.CpuList.ToVector | lib/topology.h:296-311 | all ids that are set, in ascending order |
| CpuMaps.CpuList.Union | lib/topology.h:354-358 | set union, also of a list with itself |
| CpuMaps.CpuList.Intersection | lib/topology.h:340-344 | set intersection |
| CpuMaps.CpuList.Subtract | lib/topology.h:369-373 | set difference |
| CpuMaps.IdsAre | lib/topology.cc:53-72 | the listing of a bitmap is ascending and holds exactly the ids that are set |
| CpuMaps.LowestFirst | lib/topology.cc:64-68 | count-trailing-zeros finds the first id of a word, and w & (w - 1) leaves exactly the others |
| CpuMaps.Iter.FindNextSetBit | lib/topology.cc:74-104 | the iterator stops at the first id that is set from its position up, or at the end |
| CpuMaps.Visit | lib/topology.cc:74-112 | iterating visits exactly the ids that are set, ascending, in agreement with GetNthCpu |
| CpuMaps.RoundRobin.AssignCpu | schedulers/o1/o1_scheduler.cc:97-107 | the next CPU in iteration order, starting again after the last |
| CpuMaps.AssignMany | schedulers/o1/o1_scheduler.cc:97-107 | the k-th call chooses the k-th CPU, counting round and round, so after any k calls over n CPUs each has been chosen floor(k/n) or ceil(k/n) times, and nothing else |
| ArrLists.InsertedLinked | lib/queue.bpf.h:67-119 | linking an element between two neighbours gives the list with it inserted, in both directions |
| ArrLists.RemovedLinked | lib/queue.bpf.h:121-150 | bypassing an element gives the list without it, in both directions |
| ArrLists.OtherList | lib/queue.bpf.h:8-27 | lists that share the array but no element are not disturbed |
| ArrLists.Arena.InsertHead | lib/queue.bpf.h:67-79 | [id] + s |
| ArrLists.Arena.InsertTail | lib/queue.bpf.h:81-93 | s + [id] |
| ArrLists.Arena.InsertBefore | lib/queue.bpf.h:95-106 | s with id just before the given element |
| ArrLists.Arena.InsertAfter | lib/queue.bpf.h:108-119 | s with id just after the given element |
| ArrLists.Arena.Remove | lib/queue.bpf.h:121-135 | s without the element, whose own links are cleared |
| ArrLists.Arena.PopFirst | lib/queue.bpf.h:137-150 | the first element, or none, and the rest |
| ArrLists.Arena.Concat | lib/queue.bpf.h:185-196 | the first head represents s1 + s2 if and only if s2 has elements or s1 has none; the second is empty |
| ArrLists.ConcatExactly | lib/queue.bpf.h:185-196 | the same of the array and the head fields, as values |

## Left out

- The kernel side (ioctls, ghostfs, status words, mmap): a nondeterministic environment with the legality conditions that the handlers check.
- Task discovery: it builds a new-task message without a nice value, so nice is taken to be in [-20, 19].
- Message barriers and sequence numbers (`Task::Advance`, the barrier tokens): those of commits decide whether a commit fails, which is nondeterministic here; that of Migrate decides `CHECK(channel->AssociateTask(...))` (schedulers/o1/o1_scheduler.cc:116), which is the kernel's answer and is not modelled.
- Agents running at the same time: the source has one agent per CPU, and Migrate enqueues on another agent's run queue under its lock; here an event is one atomic step.
- Pings to other CPUs and the enclave's transaction objects.
- `EnqueueActive` and `EnqueueExpired`: no caller.
- `schedulers/fifo`: the same state machine without slices, priorities or displacement.
- Tree use with `AVL_CACHING` off, and the conversions between elements and ids (`el_off`, pointer arithmetic).
- The bounded foreach iterators of `lib/queue.bpf.h`: plain walks over the links proved exact here.
- Weak memory: atomics are sequentially consistent; a handler reads the clock once.
- The atomic CPU map (`AtomicCpuMap`), the cpumask string and topology construction.
- Serialization of RPC arguments and responses: a response is a code and one datum.
- O1Schedulers.O1Scheduler.TaskDeparted: does not model the ping that asks the old CPU to reschedule.
- O1Starvation.NoStarvation: excludes priority changes, because TaskPriorityChanged puts an expired task with a fresh slice back into the active array.
