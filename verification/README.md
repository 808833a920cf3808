# Minos in Dafny

A model of the parts of the Minos hypervisor where correctness is hard to see by reading one
function, and proofs about it. `dafny verify dfyconfig.toml` checks the whole project.

**Scheduling and waking** (`ReadyQueue`, `Pcpu`, `Wake*`, `VcpuWake`). `PcpuQueue.Pcpu` keeps the
ready lists of one CPU in place, with the counters and the group of bits beside them. `WakeSystem`
is the protocol over any number of CPUs, tasks and concurrent wakers as a transition system: one
step is one lock-protected or interrupt-off region, a spin is a guard, memory is sequentially
consistent. A failing ASSERT sets a flag `panicked`, the "state wrong" branch of the new-task
interrupt sets a flag `dropped`; the theorems say that neither is ever set. Every wait of a task
has a number, and the history records which waker won it, with which result and timer, and what the
waiter saw. Wakers of one CPU nest, and none begins on a CPU that has interrupts off. `WakeSpin`,
`WakeClosed`, `WakeDoom` and `WakeReturn` say exactly which wakers wait for each other for ever, on top
of `WaitGraph`, which knows only who waits for whom. `VcpuWake` is
a second transition system for one vcpu that idles while senders on all CPUs, and in interrupts of
its own CPU, set pending virtual interrupts and kick it.

**Flattened device tree** (`Fdt*`). A structure block is bytes; `FdtTokens.Decode` gives its tokens
(section 5.4.1 of the Devicetree Specification), `FdtTree.Events` what they say with a strings block,
and `FdtTree.Flat` the events of an abstract tree (section 5.4.2). A block holds a tree when its
tokens say the events of the tree and end with one FDT_END; NOPs may stand anywhere. `FdtBlob.Blob`
is one buffer with the header fields. `FdtWrite` is the sequential writer with its backward string
table, `FdtEdit` and `FdtEditNode` the editor that splices the buffer in place, `FdtNop` the editor
that overwrites with NOPs, `FdtWalk` the walks over any block, `FdtRead` the reader, and `FdtPlace` and `FdtEditSpec` say what each edit
of the tokens does to the tree. An edited node is given by its place: the hole in the tree in which
it stands.

**Guest memory** (`VmArea`, `VmMerge`, `BlockPool`, `FindBit`, `BitmapArea`). The free and used
areas of a VM, the pool of 2 MB blocks, and the word-level bit searches under them.

**Message queue** (`MsgQueue`): the ring in place, the queue with waiters, timeouts and direct
hand-over as a transition system, and the steps of the queue on the ring.

**Timer pass** (`TimerPass`, `TimerTheorems`): one pass of the timer interrupt as a transition
system. Handlers run with the lock released, arm and stop timers meanwhile, and other CPUs stop
them; `running_timer`, the lock holder and the spin of `stop_timer` are part of the state.

**Shell history, argument parser, time conversion** (`HistRing`, `ArgParser`, `MulDiv`).

The code needs premises that it does not check. They are `requires` clauses here: `base + size` of a
split does not wrap (virt/vmm.c:356), a memory region does not round to a negative length
(virt/vmm.c:950-952), names hold no NUL and lengths fit an `int`.

Where a property one would expect does not hold for all inputs, the code is kept as it is, a concrete
input or run shows the failure, and the condition is proved:

- the tag walk moves forward, and the loop over nodes ends: `WalkAdvances`, `HangsIff`, `WalkStalls`;
- the aligned search of an empty run ends: `EmptySearch`, `EmptySearchHangs`;
- a released area merges with its neighbours: `MergeExact`, `TidyIff`, `ReleaseLeavesNeighbours`;
- freeing a block keeps the books: `FreeExact`, `FreeHitsOther`;
- a timer pass goes on: `PassGoesOn`, `StuckIff`, `PassCanEnd`, with the stuck runs
  `SelfStopReachable` and `RearmReachable`;
- an armed timer is not due at once: `DueIffRaced`, with the run `RaceReachable`;
- a waker that spins can return: `ReturnsIff`, with the run `CrossedReachable`.

Clocks, allocation failures, and what other code does while a lock is free are parameters.

## Model

| member | source | states |
|---|---|---|
| `ReadyQueue.AddReadyLaw` | core/sched.c:73-99 | linking a task keeps bits, counters and distinctness; the task stands behind every waiting task of its list, which keep their places, and the running task stays last |
| `ReadyQueue.RemoveReadyLaw` | core/sched.c:101-118 | unlinking the running task takes exactly it off the end of its list and keeps bits and counters in step with the lists |
| `ReadyQueue.RotateLaw` | core/sched.c:251-262 | the first task of a list becomes the last, no task is gained or lost, the books stay right |
| `ReadyQueue.Lowest` | core/sched.c:247-249 | the table look-up gives the least priority whose bit is set |
| `PcpuQueue.Pcpu.constructor` | core/task.c:289-324 | after the idle task is created only it is linked, and the books hold although it is not counted |
| `PcpuQueue.Pcpu.AddTaskToReadyList` | core/sched.c:73-99 | in place: the state becomes that of the specification, the invariant is kept, one counter grows by one |
| `PcpuQueue.Pcpu.PickNextTask` | core/sched.c:226-265 | in place: no list of a higher priority has a task, the picked task was first in its list, the invariant is kept, and the list needed by the two ASSERTs is never empty |
| `PcpuQueue.ArrivalKeepsPlace` | core/sched.c:86-92 | an arrival never gets in front of a waiting task |
| `PcpuQueue.PickBringsNearer` | core/sched.c:251-262 | a pick at the level of a waiting task takes it or brings it one place nearer |
| `PcpuQueue.BoundedWaiting` | core/sched.c:226-265 | in every run of arrivals and picks at one level, a task at position k is picked within k+1 picks |
| `WakeTheorems.BootOk` | core/task.c:289-324 | the boot state satisfies the invariant of the protocol |
| `WakeSwitch.StepKeeps` | core/sched.c:163-319 | every step of every CPU and waker keeps the invariant |
| `WakeTheorems.NeverPanics` | core/sched.c:425-469 | in every reachable state no list ASSERT has failed and the new-task interrupt has dropped no task |
| `WakeTheorems.OneListOnly` | core/sched.c:73-161 | in every reachable state each task is at one position of one ready or new list at most, over all CPUs |
| `WakeTheorems.ListsBooked` | core/sched.c:226-319 | in every reachable state bits and counters of every CPU match its lists, and between switches the running task is last in its list |
| `WakeTheorems.OneWinner` | core/sched.c:573-636 | every finished wait has a winner on record, a current wait has one exactly when the task has left WAIT_EVENT, the waiter sees that winner's result and message, and a timeout only wins the wait its timer was armed for |
| `WakeTheorems.WinnerIsFinal` | core/sched.c:573-636 | no step changes the record of a wait that has been won |
| `WakeTheorems.WinnerStays` | core/sched.c:516-644 | over any stretch of any run, the waker on record for a wait stays the one on record |
| `WakeTheorems.SuccessIsFirst` | core/sched.c:573-636 | a waker that succeeds finds nobody on record for that wait, and is on record afterwards |
| `WakeTheorems.OnlySuccessWins` | core/sched.c:573-636 | a step puts a waker on record only by succeeding |
| `WakeTheorems.OneSuccess` | core/sched.c:516-644 | over every run, a wait on record has exactly one successful step, by the waker on record, and a wait not on record has none |
| `WakeTheorems.FinishedWait` | core/sched.c:516-644 | every finished wait had exactly one successful waker, and the waiter saw the result and message of that waker |
| `WakeTheorems.OwnerIsWinner` | core/sched.c:604-644 | a waker that goes on to link the task and return success is the winner of its wait |
| `WakeTheorems.WakingIsKept` | core/sched.c:604-632 | a task in WAKING that is on no list is owned by exactly one waker that will link it |
| `WakeSpin.SpinsForOthers` | core/sched.c:592-602 | a waker spins only for a task that is current on another CPU |
| `WakeSpin.SpinEnds` | core/sched.c:592-602 | while no waker runs on the CPU that is waited for, one pick and one switch of that CPU at most end the spin |
| `WakeSpin.FrozenStays` | core/sched.c:583-602 | while a waker runs on the CPU of a waiting task the task stays current there, unless an interrupt of that CPU takes it |
| `WakeNest.ReachableNest` | include/minos/spinlock.h:30-36 | in every reachable state a waker that has interrupts off is the youngest of its CPU |
| `WaitGraph.ClosedIff` | core/sched.c:573-602 | somebody is in a set in which everybody waits for somebody of the set exactly when a chain of waiting from it comes back to itself |
| `WakeClosed.ClosedStays` | core/sched.c:573-602 | a set of wakers in which each is blocked by one of the set, by a spin, a lock, a timer handler or from on top of it, stays so over every step, and none of them makes a step |
| `WakeClosed.GoesOnIff` | core/sched.c:573-602 | a waker waits, through others at most, for a step that can be made exactly when it is in no such set |
| `WakeDoom.ClosedIsDoomed` | core/sched.c:573-602 | wakers that block each other are doomed |
| `WakeDoom.DoomedStays` | core/sched.c:573-602 | doomed are also wakers that are still on their way to the spin with nothing to keep them from it; whatever anybody does they stay doomed, and none of them ever returns |
| `WakeDoom.TimerNotDoomed` | core/sched.c:573-602 | a waker that runs in the timer interrupt is never among them |
| `WakeReturn.RunsHome` | core/sched.c:516-644 | from every other state a run in which the wakers it waits for return first and it returns |
| `WakeReturn.ReturnsIff` | core/sched.c:516-644 | in every reachable state a waker can still return exactly when it is in no doomed set |
| `WakeRing.CrossedReachable` | core/sched.c:573-602 | a run of two CPUs from boot to a closed set of two wakers that spin for each other |
| `VcpuWake.StepKeeps` | virt/virq.c:58-118 | every step of senders, interrupts and the vcpu keeps the invariant |
| `VcpuWake.NoLostWakeup` | virt/vm.c:128-145 | no reachable state has the vcpu in WAIT_EVENT with a pending virtual interrupt and no sender on its way to wake it |
| `VcpuWake.HelpExists` | include/minos/event.h:51-78 | such a state never deadlocks: a sender or the vcpu itself can make a step |
| `VcpuWake.HelpDecreases` | core/sched.c:516-644 | each of these steps brings the wake-up nearer, by a measure |
| `VcpuWake.WaitIsBounded` | virt/vm.c:201-212 | in whatever order the steps are taken, only so many fit while the vcpu waits |
| `VcpuWake.WokenUp` | core/event.c:132-154 | from such a state there is a run without any further send after which the vcpu has left WAIT_EVENT |
| `FdtTokens.DecodeJoin` | libs/libfdt/fdt.c:171-222 | the concatenation of encoded tokens decodes to exactly these tokens |
| `FdtTokens.ChunksOf` | libs/libfdt/fdt.c:171-222 | every block that decodes is the concatenation of its encoded tokens |
| `FdtTokens.DecodeFrom` | libs/libfdt/fdt.c:171-222 | every token is at the offset that the sizes of the tokens before it give |
| `FdtTokens.BlockAligned` | libs/libfdt/fdt.c:171-222 | a block that decodes is as long as its tokens, a multiple of four |
| `FdtTree.HoldsUnique` | libs/libfdt/fdt.c:242-280 | a block holds at most one tree, so readers cannot disagree |
| `FdtTree.FlatFill` | libs/libfdt/fdt.c:242-280 | the events of a filled hole are those around it with those of the filling between |
| `FdtPlace.NodeAt` | libs/libfdt/fdt.c:242-280 | every begin token of a block that holds a tree is a node in one hole of the tree, and the walk over depths ends at its end |
| `FdtPlace.CloseIsEnd` | libs/libfdt/fdt_wip.c:119-127 | counting depths from a begin token stops exactly behind the matching end token |
| `FdtEditSpec.SetThenGet` | libs/libfdt/fdt_rw.c:272-303 | after a set the name has the value, and every other name finds what it found before |
| `FdtEditSpec.FindsFirst` | libs/libfdt/fdt_ro.c:403-431 | the walk over property tokens finds the first property of that name, or none when there is none |
| `FdtEditSpec.ExchangeFound` | libs/libfdt/fdt_rw.c:203-219 | other tokens in the place of the found property change that property of that node only |
| `FdtEditSpec.InsertProp` | libs/libfdt/fdt_rw.c:221-247 | a property token behind the begin token is a new first property of that node only |
| `FdtEditSpec.InsertKid` | libs/libfdt/fdt_rw.c:347-386 | a node behind the properties is a new first child of that node only |
| `FdtEditSpec.RenameWith` | libs/libfdt/fdt_rw.c:249-270 | another begin token changes the name of that node only |
| `FdtEditSpec.Drop` | libs/libfdt/fdt_rw.c:393-405 | tokens that say nothing in the place of a node leave exactly what stands around it |
| `FdtEditSpec.MoreStrings` | libs/libfdt/fdt_rw.c:139-172 | strings appended to the strings block change no name |
| `FdtWalk.WalkAdvances` | libs/libfdt/fdt.c:196-206 | a tag walk moves forward exactly when the tag is not a property whose length field is 2^32 - 12 |
| `FdtWalk.WalkStalls` | libs/libfdt/fdt.c:196-206 | a block on which the walk stays where it is |
| `FdtWalk.FdtNextTag` | libs/libfdt/fdt.c:171-222 | the loop over a name and the mixed signed and unsigned sums give the tag, the next offset and the error codes of the specification, for every offset of every block |
| `FdtRead.TagAt` | libs/libfdt/fdt.c:171-222 | at the offset of a token the walk gives its tag and the offset of the next token |
| `FdtWalk.CheckOffset` | libs/libfdt/fdt.c:224-240 | an offset that is negative, unaligned or at another tag is BADOFFSET |
| `FdtWalk.WalkNextNode` | libs/libfdt/fdt.c:242-280 | on every block and offset on which its loop ends, what fdt_next_node returns, with and without a depth |
| `FdtWalk.EndsIff` | libs/libfdt/fdt.c:242-280 | that is exactly when the loop is over after some number of rounds |
| `FdtWalk.HangsIff` | libs/libfdt/fdt.c:242-280 | on any block the loop goes round for ever exactly when it comes to a property whose length field is 2^32 - 12 |
| `FdtRead.TokenWalk` | libs/libfdt/fdt.c:242-280 | on a block of whole tokens it always ends, with the offset and depth of the next begin token, of the end that leaves the start depth, or the error |
| `FdtWalk.WalkFirstSubnode` | libs/libfdt/fdt.c:282-291 | on every block on which the walk ends, the offset of the first child or NOTFOUND |
| `FdtWalk.WalkNextSubnode` | libs/libfdt/fdt.c:293-308 | on every block on which its walks end, the offset at which they come to depth 1, or NOTFOUND |
| `FdtRead.TokenSib` | libs/libfdt/fdt.c:293-308 | on a block of whole tokens that is the next sibling |
| `FdtWalk.WalkNodeEnd` | libs/libfdt/fdt_wip.c:119-127 | on every block on which its walks end, the offset at which they leave the node, or the error |
| `FdtRead.TokenEnd` | libs/libfdt/fdt_wip.c:119-127 | on a block of whole tokens that is the offset behind the matching end |
| `FdtWalk.WalkNextProp` | libs/libfdt/fdt_ro.c:211-233 | on every block and offset, the next property behind NOPs, or the reason why there is none; its loop always ends |
| `FdtRead.TokenProp` | libs/libfdt/fdt_ro.c:211-233 | on a block of whole tokens that is the first property token behind Nop tokens |
| `FdtRead.GetString` | libs/libfdt/fdt_ro.c:79-131 | the string at an offset of the strings block, counted from its end in a blob still being written, and every error code |
| `FdtRead.GetName` | libs/libfdt/fdt_ro.c:310-346 | the name of the node at an offset |
| `FdtRead.FindProperty` | libs/libfdt/fdt_ro.c:403-431 | the offset of the first property token of that name, or the error of the walk |
| `FdtRead.ReadProps` | libs/libfdt/fdt_ro.c:348-385 | the walk over properties returns the properties of the node, in order |
| `FdtRead.ReadNode` | libs/libfdt/fdt.c:282-308 | the recursive walk over children returns the node |
| `FdtRead.ReadTree` | libs/libfdt/fdt.c:242-308 | a reader that uses only the public walk returns the tree the blob holds, wherever NOPs stand |
| `FdtBlob.FindString` | libs/libfdt/fdt.c:310-320 | the first place where the string with its NUL stands, also inside a longer one, or none when there is none |
| `FdtWrite.Create` | libs/libfdt/fdt_sw.c:144-165 | the header of an empty blob, or NOSPACE exactly for a buffer shorter than it |
| `FdtWrite.FinishReservemap` | libs/libfdt/fdt_sw.c:223-232 | the blob is ready for nodes; every error code, which leaves it as it was |
| `FdtWrite.Grab` | libs/libfdt/fdt_sw.c:129-142 | space is given exactly when it fits below the strings; the strings and what was written stay |
| `FdtWrite.BeginNode` | libs/libfdt/fdt_sw.c:234-249 | what was written plus a begin; NOSPACE exactly when it does not fit, and then nothing changes |
| `FdtWrite.FinishNode` | libs/libfdt/fdt_sw.c:251-263 | what was written plus an end; NOSPACE exactly when it does not fit, and then nothing changes |
| `FdtWrite.MoreInFront` | libs/libfdt/fdt_sw.c:265-286 | strings put in front do not change what the negative name offsets stand for |
| `FdtWrite.FindAddString` | libs/libfdt/fdt_sw.c:265-286 | a negative offset at which the string stands, an old place when it is there, or 0 exactly when it is not there and does not fit |
| `FdtWrite.WriteProperty` | libs/libfdt/fdt_sw.c:288-320 | what was written plus the property; it fails only for want of space, and then says what it said |
| `FdtWrite.CorrectNames` | libs/libfdt/fdt_sw.c:322-365 | the walk over the finished block turns every negative name offset into one from the start of the strings |
| `FdtWrite.Finish` | libs/libfdt/fdt_sw.c:322-365 | a packed blob of version 17 that says what was written; the error codes, which leave it as it was |
| `FdtWrite.WriteTree` | libs/libfdt/fdt_sw.c:144-365 | the calls for a tree, from create to finish, give a blob that holds the tree; NOSPACE is the only error, and never for a buffer of `Need(t)` bytes |
| `FdtWrite.WriteThenRead` | libs/libfdt/fdt_sw.c:144-365 | writing a tree and reading it back is the identity |
| `FdtEdit.PlaceOfNode` | libs/libfdt/fdt_rw.c:249-270 | every node offset of a blob that holds a tree has a place, so the edits below apply to every node |
| `FdtEdit.SpliceStruct` | libs/libfdt/fdt_rw.c:97-137 | exactly the region is replaced, the strings move with their offset, the blocks stay in order and grow by the difference, and everything outside them stays; NOSPACE exactly when the data would outgrow the blob |
| `FdtEdit.FindAddString` | libs/libfdt/fdt_rw.c:139-172 | the offset of the string, which is appended when it is not there; NOSPACE only when it does not fit |
| `FdtEdit.GetPropertyW` | libs/libfdt/fdt_ro.c:403-457 | the offset of the first property of that name and the length of its value |
| `FdtEdit.SetProp` | libs/libfdt/fdt_rw.c:203-303 | the tree changes at one property of one node only, the blocks grow by what the property and its name need, and everything outside them stays; NOSPACE only when `Growth` does not fit, and then the tree and the place are as before |
| `FdtEdit.DelProp` | libs/libfdt/fdt_rw.c:332-345 | the first property of that name is gone and nothing else changed, the block shrinks by exactly its token, and everything outside the blocks stays; NOTFOUND exactly when there is none |
| `FdtEdit.SetName` | libs/libfdt/fdt_rw.c:249-270 | the tree changes at one name only, the block grows by the difference, and everything outside the blocks stays; NOSPACE exactly when the difference does not fit, and then nothing changes |
| `FdtEditNode.SubnodeOffset` | libs/libfdt/fdt_ro.c:235-252 | the first child token whose name matches, up to a unit address, or NOTFOUND |
| `FdtEditNode.KidFound` | libs/libfdt/fdt_ro.c:58-77 | the search over tokens finds a child exactly when the tree has one that matches |
| `FdtEditNode.AddSubnode` | libs/libfdt/fdt_rw.c:347-386 | one new first child, whose bytes stand at the returned offset, the block grows by these, and everything outside the blocks stays; EXISTS exactly when a child matches, NOSPACE only when it does not fit, and then nothing changes |
| `FdtEditNode.GoneIs` | libs/libfdt/fdt_rw.c:393-405 | what is left without an inner node is the tree without it; without the root nothing is left |
| `FdtEditNode.DelNode` | libs/libfdt/fdt_rw.c:393-405 | the node and all below it are gone and nothing else changed, the block shrinks by exactly its tokens, and everything outside the blocks stays; it always succeeds |
| `FdtNop.NopRegion` | libs/libfdt/fdt_wip.c:97-103 | exactly the words of the region become NOP tags |
| `FdtNop.NopProperty` | libs/libfdt/fdt_wip.c:105-117 | the same result and the same tree as `DelProp`; every byte of the structure block is what it was or part of a NOP, and nothing else changes |
| `FdtNop.NopNode` | libs/libfdt/fdt_wip.c:129-140 | the same tree as `DelNode`; every byte of the structure block is what it was or part of a NOP, and nothing else changes |
| `VmArea.PlaceCounts` | virt/vmm.c:123-166 | the merge loop with restarts covers every address as often as the free list and the new area did; it ends because a restart removes an entry |
| `VmArea.PlaceCovers` | virt/vmm.c:123-166 | some free area covers the released one |
| `VmArea.LargestMerges` | virt/vmm.c:123-166 | when every free area is shorter than the released one, the result touches no other free area |
| `VmMerge.MergeExact` | virt/vmm.c:123-166 | for any free list, with neighbours in it or not: the area that covers the released one has no neighbours exactly when no area of at least that size stands in the list in front of one that free addresses connect with the released one, unless it will have been merged before it; a list without neighbours then stays one |
| `VmMerge.ReleaseMerges` | virt/vmm.c:211-220 | the same for every release from an address space that is partitioned into areas that are not empty |
| `VmMerge.TidyIff` | virt/vmm.c:123-166 | over every run of splits and releases from the whole space: in every state no free areas are neighbours and no area is empty, exactly when no request was for nothing and no release had anything in the way |
| `VmMerge.ReleaseLeavesNeighbours` | virt/vmm.c:123-166 | a free list and a released area on which two neighbours stay unmerged |
| `VmArea.AlignedLeast` | virt/vmm.c:316-328 | rounding up gives the least aligned address |
| `VmArea.HoldsIff` | virt/vmm.c:316-328 | the test made on a free area holds exactly when the area has room for an aligned request |
| `VmArea.Mm.constructor` | virt/vmm.c:679-708 | one free area is the whole address space |
| `VmArea.Mm.Split` | virt/vmm.c:273-314 | the piece becomes used, the rests stay free, and the areas still partition the address space; a missing entry changes nothing |
| `VmArea.Mm.AllocFree` | virt/vmm.c:330-351 | an aligned area of the rounded size that was free; it fails exactly when no free area can hold one, or for want of an entry |
| `VmArea.Mm.SplitArea` | virt/vmm.c:353-384 | the requested range becomes used exactly when a free area holds it and the entries needed for its rests can be allocated; the rests of the first such area stay free, the partition is kept |
| `VmArea.Mm.Release` | virt/vmm.c:211-220 | the area leaves the used list and its addresses are free, in the free list that the merge loop gives; the partition is kept |
| `BlockPool.BaseExact` | virt/vmm.c:837-840 | the 32-bit shift gives the address of block bfn % 2048, which is bfn exactly below 4 GB |
| `BlockPool.BooksTake` | virt/vmm.c:872-888 | setting a clear bit keeps: a bit is set exactly for an owned block, and the counters are the clear bits |
| `BlockPool.BooksGive` | virt/vmm.c:837-857 | clearing the bit of an owned block keeps the same |
| `BlockPool.FreeExact` | virt/vmm.c:837-870 | freeing an owned block leaves right books exactly when the block lies below 4 GB |
| `BlockPool.FreeHitsOther` | virt/vmm.c:837-870 | freeing the block at 4 GB clears the bit of the block at 0, which somebody else owns, and leaks the one given back |
| `BlockPool.BuildSections` | virt/vmm.c:930-980 | disjoint regions give disjoint sections with all blocks free and a right total |
| `BlockPool.FindSection` | virt/vmm.c:837-857 | for every block number the first section that holds block bfn % 2048 and the bit number in it, or none when no section holds it |
| `BlockPool.FindClear` | virt/vmm.c:872-888 | by the word-level search, the first clear bit from the current one on, else the first one before it; one is found exactly when there is one |
| `BlockPool.Pool.constructor` | virt/vmm.c:930-980 | the books hold and no block is owned |
| `BlockPool.Pool.FreeBlock` | virt/vmm.c:837-870 | for every block number, owned or not: what the pool becomes, that it is refused exactly when no section holds block bfn % 2048, and that right books stay right exactly when an owned block lies below 4 GB |
| `BlockPool.Pool.TakeFrom` | virt/vmm.c:872-888 | a section with a free count gives a block nobody owns |
| `BlockPool.Pool.TakeBlock` | virt/vmm.c:890-928 | a block nobody owns exactly when the pool has one; the "content wrong" branch is never reached |
| `BlockPool.Pool.AllocBlock` | virt/vmm.c:890-928 | a block nobody owns, exactly when the pool has one and an entry can be made; when no entry can be made the block is given back, and the books stay right exactly when it lay below 4 GB |
| `BlockPool.Pool.AllocVm` | virt/vmm.c:621-651 | after the check for enough memory the loop gets all its blocks, wherever they lie: distinct, new, and counted |
| `FindBit.Ffs` | core/find_bit.c:99-112 | the least set bit of a word |
| `FindBit.Fls` | core/find_bit.c:126-141 | the greatest set bit of a word |
| `FindBit.FindNext` | core/find_bit.c:27-53 | the word-level search agrees with the search over single bits for any start, size and partial last word |
| `FindBit.FindNextLoop` | core/find_bit.c:67-82 | the first match from the start on, else the first match before it, and size exactly when there is none |
| `FindBit.FindFirst` | core/find_bit.c:99-124 | the first set or clear bit below size |
| `FindBit.FindLast` | core/find_bit.c:126-141 | the last set bit below size |
| `FindBit.Fill` | core/bitmap.c:82-122 | exactly the bits of the range are set or cleared |
| `BitmapArea.RoundUpLeast` | core/bitmap.c:135-158 | for a power of two the mask expression, taken bit after bit, is the least multiple not below its argument |
| `BitmapArea.AlignedIff` | core/bitmap.c:160-185 | for a power of two the mask test is zero exactly at the multiples |
| `BitmapArea.FindAreaOff` | core/bitmap.c:135-158 | the least suitably aligned start with nr clear bits, or a value above size exactly when there is none |
| `BitmapArea.FindAreaAlign` | core/bitmap.c:160-185 | the same for the alignment of the start itself; for nr = 0, whenever the loop ends at all, the first aligned clear bit or the size |
| `BitmapArea.EmptySearch` | core/bitmap.c:160-185 | for nr = 0 the loop ends exactly when size is aligned or an aligned clear bit lies ahead |
| `BitmapArea.EmptySearchHangs` | core/bitmap.c:160-185 | a bitmap on which it never ends |
| `MsgRing.Ring.constructor` | core/queue.c:23-46 | an empty ring |
| `MsgRing.Ring.Pop` | core/queue.c:59-69 | the message at the front leaves the ring |
| `MsgRing.Ring.Push` | core/queue.c:71-77 | the message goes to the back |
| `MsgRing.Ring.PushFront` | core/queue.c:79-86 | the message goes to the front |
| `MsgRing.Ring.Flush` | core/queue.c:105-118 | the ring is empty |
| `MsgRingSteps.Take` | core/queue.c:88-164 | taking from the ring in place does to its messages what the step of the protocol says, and gives the first message |
| `MsgRingSteps.Put` | core/queue.c:166-193 | the same for a post that finds no waiter; it fails exactly for a full ring |
| `MsgRingSteps.RingStep` | core/queue.c:88-207 | every step of the protocol, done on the ring in place, leaves the messages that the protocol says |
| `MsgQueue.WaitsKept` | core/event.c:69-120 | every step keeps: the wait list holds exactly the tasks that may still be waiting, each once, and a non-empty ring means it is empty |
| `MsgQueue.ConservedKept` | core/queue.c:120-193 | every step keeps the balance of messages |
| `MsgQueue.Conservation` | core/queue.c:120-193 | over every run, accepted messages are exactly those in the ring, handed over, received or flushed |
| `MsgQueue.NobodyWaits` | core/queue.c:166-193 | over every run, a non-empty ring means that no task waits |
| `MsgQueue.PostOrder` | core/queue.c:166-193 | over every run with tail posts only, messages leave in the order in which they were accepted |
| `TimerPass.ExpiringKeeps` | core/timer.c:171-190 | the expiry that arming stores makes no timer due and leaves every other timer as it is |
| `TimerPass.LinkedKeeps` | core/timer.c:128-169 | linking a timer makes at most that timer due, exactly if its expiry is, and moves no other timer |
| `TimerPass.DetachedKeeps` | core/timer.c:221-245 | stopping a timer takes it off the lists, makes no timer due and moves no other timer |
| `TimerPass.StepKeeps` | core/timer.c:32-109 | every step of the pass, its handlers and other CPUs keeps the invariant, also when another CPU stops the very timer that a handler is arming |
| `TimerTheorems.PassEnds` | core/timer.c:32-109 | a pass that ends has fired each timer that was not raced at most once, only if it was due and not if it was stopped before its turn; a timer left alone has fired if it was due and is kept if not, and an armed one is on the list for its time, whatever happened to other timers |
| `TimerTheorems.ArmedIsKept` | core/timer.c:128-190 | a timer that a handler arms without a race for it, and that nothing stops or arms afterwards, is on the list with that expiry at the end of the pass |
| `TimerTheorems.StoppedIsSilent` | core/timer.c:221-245 | a timer that is stopped before its turn and never raced does not fire in the pass |
| `TimerTheorems.RaceMakesDue` | core/timer.c:171-181 | a timer that is stopped between the store of its expiry and the lock is linked with expiry 0, so it is due at once |
| `TimerTheorems.RacedIs` | core/timer.c:171-181 | the timers on record as raced are exactly those stopped by another CPU between the store of their expiry and the lock |
| `TimerTheorems.DueIffRaced` | core/timer.c:171-181 | in every state of every run, the timer that is being armed is due exactly when it was raced since the store of its expiry |
| `TimerTheorems.RaceReachable` | core/timer.c:171-181 | a run in which a timer that was not due and not on the list when the pass began is raced and fires in the pass |
| `TimerTheorems.StuckStays` | core/timer.c:230-237 | a pass that is stuck at the spin or the lock makes no step any more, whatever anybody does |
| `TimerTheorems.PassGoesOn` | core/timer.c:32-109 | in every state of every run the pass can make its next step, at the latest after one of the CPU that holds the lock, exactly when it is neither over nor stuck |
| `TimerTheorems.StuckIff` | core/timer.c:221-245 | when no handler stops its own timer, a pass is stuck exactly when another CPU is stopping the running timer at the moment its handler needs the lock |
| `TimerTheorems.SelfStopSticks` | core/timer.c:230-237 | a handler that stops its own timer gets stuck |
| `TimerTheorems.OutsideStopSticks` | core/timer.c:230-237 | a handler that arms or stops any timer gets stuck when another CPU takes the lock first to stop the running timer |
| `TimerTheorems.SelfStopReachable` | core/timer.c:221-245 | a run in which a handler stops its own timer and is stuck |
| `TimerTheorems.RearmReachable` | virt/vwdt.c:144-160 | a run in which the handler re-arms its timer while another CPU has begun to stop it, as the watchdog does, and is stuck |
| `TimerTheorems.PassIsBounded` | core/timer.c:32-109 | over every run the pass and its handlers make a bounded number of steps, to which each race adds the cost of one timer |
| `TimerTheorems.PassCanEnd` | core/timer.c:32-109 | when no handler stops its own timer, every state of every run in which no other CPU holds the lock can be continued, by the pass alone, to its end |
| `HistRing.ScanFinds` | apps/esh/esh_hist.c:146-163 | the backward scan finds entry n exactly when it is in the list and within the limit |
| `HistRing.EntryAt` | apps/esh/esh_hist.c:71-88 | the bytes of entry n stand behind that place |
| `HistRing.AddHolds` | apps/esh/esh_hist.c:165-189 | bytes written behind the tail leave the ring with the last bytes of the longer stream |
| `HistRing.Hist.constructor` | apps/esh/esh_hist.c:123-141 | a ring without entries |
| `HistRing.Hist.Reset` | apps/esh/esh_hist.c:40-44 | a ring without entries |
| `HistRing.Hist.Add` | apps/esh/esh_hist.c:165-189 | the string is the newest entry; the history is emptied exactly when it does not fit |
| `HistRing.Hist.Nth` | apps/esh/esh_hist.c:146-163 | the place of entry n, and -1 exactly when it is not in the list or no longer fits in the ring |
| `HistRing.Hist.ReadAt` | apps/esh/esh_hist.c:71-88 | reading there gives the entry |
| `ArgParser.QuoteRoundTrip` | apps/esh/esh_argparser.c:57-89 | splitting quoted arguments gives them back |
| `ArgParser.ReadBack` | apps/esh/esh_argparser.c:57-89 | the compacted line has the arguments of the splitter at the recorded places, each with a NUL behind it |
| `ArgParser.ConsumeQuoted` | apps/esh/esh_argparser.c:39-55 | the text up to the closing quote moves down; the write place stays below the read place, and nothing from the write place on changes |
| `ArgParser.StepText` | apps/esh/esh_argparser.c:57-89 | one text of the line is compacted; nothing from the write place on has been written, and that is not ahead of the read place, so what is unread is still the line |
| `ArgParser.ParseArgs` | apps/esh/esh_argparser.c:57-89 | for every line: the true number of arguments, also above the limit, and the first ones as C strings in the buffer, equal to those of the splitter; behind the compacted line, which is no longer than the line, nothing but the final NULs is written |
| `MulDiv.NoOverflow` | core/stdlib.c:50-67 | no intermediate value leaves 64 bits |
| `MulDiv.MulDivExact` | core/stdlib.c:50-67 | the result is the quotient of the 96-bit product, modulo 2^64 |
| `MulDiv.Monotone` | include/minos/time.h:31-34 | more ticks are at least as many nanoseconds |
| `MulDiv.MonotoneTicks` | include/minos/time.h:36-39 | more nanoseconds are at least as many ticks |
| `MulDiv.RoundTrip` | include/minos/time.h:31-39 | ticks to nanoseconds and back loses at most one tick for clocks up to 1 GHz |

## Left out

- FdtEdit.SetProp: covers fdt_setprop and the placeholder under it; fdt_appendprop is not modelled.
- FdtWrite.FinishReservemap: no reserve map entries besides the terminating one; fdt_resize and the reserve map functions are not modelled.
- TimerPass.StepKeeps: a handler makes at most k calls, for any k, and the lists are values; the linked entries and their update in place are not captured.
- FdtRead.FindProperty: requires a block of whole tokens, because in another block the name offset of a property may lie behind the end of the block; `WalkNextProp` and `HangsIff` say what its walk does there.
- WakeReturn.ReturnsIff: that a waker can return, not that it must: other wakers that begin meanwhile may take it into a doomed set, and fairness of the spin locks is not modelled.
- MsgRing.Ring.Pop: requires a message; queue_pend and queue_accept look at the count before they call it.
- The header of a blob is fields of an object, so its byte order, fdt_check_header, blobs older than version 16 and fdt_ro_probe are not modelled.
- An edit is given the offset of a node; `CheckOffset` states what other offsets give.
- fdt_pack, fdt_open_into, fdt_move, overlays, aliases, paths, phandles and string lists: they add little beyond the edits above.
- Sums of lengths near INT_MAX that would overflow an `int` in the editor: blobs are at most INT_MAX bytes long.
- VcpuWake.WokenUp: one vcpu alone; wakers that wait for each other are part of `WakeClosed` and `WakeReturn`.
- Task stop and recycle, remote preemption, need_resched, and sleeping with task_sleep: not part of the wake protocol modelled here.
- Mutexes, flags and semaphores, and progress of posts made in interrupts while the event lock is held.
- The page allocator, memory regions (taken as disjoint), guest page tables, and the page-rounding pass of vm_mm_init.
- The earliest-timer field of the timer code, and passes of several CPUs at once: a timer is on the lists of one CPU.
- Line editing, printing and substitution in the shell.
- Drivers, interrupt controllers, platform code, hypercalls and boot.
