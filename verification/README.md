# Verified core of the kernel

A Dafny model of the hardest parts of a small AArch64 kernel, with the
properties they are for. The code that changes state in place is modelled by
classes and loops (`Emitter`, `Compile`, `Machine`, `Kernel`, `Allocator`,
`ProcCode`, `UserCode`, `Frame`, `VfsCode`), each proved to compute a function of
the old state; the theorems are about those functions.

* **The C-subset compiler and its virtual machine.** `Bytecode` has the
  instruction encoding, `Vm` the interpreter as a step function, `Source` a direct
  interpreter of the language, `CodeGen` the instructions each construct compiles
  to. `SimulateExpr`, `SimulateStmt` and `Toycc` prove that the emitted file does
  what the source does, `Arithmetic` what the operators that both share compute,
  and `SourceLaws` what the constructs of the language mean by one another.
  `Patching` and `Emitter` are the one-pass emitter with its placeholders, patch
  lists and step buffer, `Placeholders` who fills which operand; `Compile` is the
  entry point. `StackDiscipline` and `Boundaries` prove what the
  stack and the program counter can be.
  `Limits` and `DepthLimit` say when the conditions of correctness fail, and what
  happens then.
  `Machine` is the loop of the virtual machine over its arrays.
* **Blocking synchronisation.** `Tasks` is the task table and the round-robin
  scheduler; `Sync` a step system in which every critical section, every scheduler
  call and every timer tick is one step, so that ticks fall between the unlock of a
  blocking call and its own scheduler call; `SyncRuns` has the properties of whole
  runs, `SyncEffects` what each step does to every part of the state, `SyncLimits`
  the reasons for the conditions, `Kernel` the code.
* **Heap, page tables, stack isolation.** `Heap` is the allocator over 64-bit
  words, `HeapEffects` what one call does in addresses, `Allocator` the code over block headers in memory; `Pages` the descriptor
  formats (VMSAv8-64, section D8.3 of the Arm Architecture Reference Manual) and
  the hardware's table walk; `Procs` and `ProcLife` splitting, unmapping, making
  and freeing tables, with `ProcCode` as the code; `Isolation` the user tasks, with
  `UserCode` as the code and `UserEffects` on who gets which slot and memory, and when.
* **Frame layout and filesystem.** `Frame` is the C compiler's storage allocator,
  with `FrameBytes` on the bytes of array elements and `FrameLimits` on what frames
  share and on symbols of size 0; `Vfs`, `VfsTree`, `VfsPaths`, `VfsNames`,
  `VfsFiles`, `VfsEffects` and `VfsCode` the inode filesystem.

`Basics` holds notions that several parts share.

Conditions the code needs are stated as predicates: `Toycc.Supported` (no `&&` or
`||` in a `for` step, static depth of at most 64, no conditional jump to the very
end of the code), `Sync.Enabled` (task 0 never blocks or sleeps, a task inside a blocking call
is killed only when it was woken and the other woken tasks can take all there is),
`Heap.Askable` (no sum leaves 64 bits), `Procs.Enough` and `Isolation.RoomToBar`
(level-3 slots and memory last), `VfsPaths.GoodPath` (last component and what is
before it of at most 31 characters each, slashes before the last one aside). Where a
promise fails without its condition, lemmas below say when, and what happens then.
Two of these are about the code and not about every run: `Limits.JumpsPastCode` says
exactly which programs have a conditional jump to the end of the code, and
`Limits.JzToEndStops` that every run that reaches one stops there, which is wrong
unless the source has nothing left to do; `DepthLimit.DepthDecides` speaks of
expressions without short-circuit operators, as others may skip their deepest part.

Two places where the code and its comments differ: the comment in `semaphore.c`
says that a signal hands its permit to the task it wakes, but a woken task checks
again and may be overtaken, so the model has a real race; and `sem_signal` is
documented as incrementing the count only when nobody waits, while the code
increments it always.

## Model

| member | source | states |
|---|---|---|
| Bytecode.DecodeEncode | tinycc.c:87-144 | decoding the bytes of any instruction sequence gives that sequence back, so the header count is the number of decodable instructions |
| Bytecode.FetchEncoded | tinycc.c:1145-1262 | an instruction is decoded from wherever its bytes stand in the code, and the next one starts right behind it |
| Patching.PatchJump | tinycc.c:138-140 | an in-place 32-bit patch turns a jump's placeholder into its target and changes no other byte |
| Patching.PatchSites | tinycc.c:459-462 | patching the recorded sites of a statement retargets exactly its own break (or continue) jumps, through nested blocks and conditionals, and leaves loops inside alone |
| CodeGen.Relocatable | tinycc.c:621-668 | code of an expression is the same at two places if and only if it contains no short-circuit operator |
| CodeGen.GenStmtSize | tinycc.c:903-980 | the code of every statement is exactly as long as its size formula says, wherever it is placed |
| SimulateExpr.SimExpr | tinycc.c:467-703 | running the code of an expression pushes its value and changes the variables as evaluation does, short-circuiting where the language does, and using no more stack than its static depth |
| SimulateStmt.SimStmt | tinycc.c:903-980 | running the code of a statement ends where evaluation ends: behind it, at the loop's break or continue target, or halted, with the same variables and output |
| SimulateStmt.SimLoop | tinycc.c:819-844 | the shared loop code (test, body, step, jump back) follows the interpreter through every iteration, and runs at least `fuel` steps when the interpreter runs out |
| SimulateStmt.SimFor | tinycc.c:762-817 | a `for` whose step was compiled into a side buffer and copied behind the body means init; while (test) body; step |
| SimulateStmt.SimDoWhile | tinycc.c:846-874 | `do` runs its body before the first test, with `continue` going to the test |
| SimulateStmt.Relocated | tinycc.c:806-811 | a step buffer without short-circuit operators means the same at its final place |
| Toycc.CompilerCorrect | tinycc.c:982-1061 | for every supported program the virtual machine, run on the emitted file, prints and sleeps exactly as the source does and ends with the same variables; if the source does not end, neither does the machine, and its trace keeps up |
| Arithmetic.S32Is | tinycc.c:1161-1177 | reducing to 32 bits keeps a number that fits and changes any other by a multiple of 2^32 |
| Arithmetic.SumsAre | tinycc.c:1173-1184 | sums, differences and products are the true ones when these fit 32 bits, and differ from them by a multiple of 2^32 otherwise |
| Arithmetic.DivisionIs | tinycc.c:1185-1192 | division truncates toward zero and the remainder has the sign of the dividend and less than the divisor's size; a divisor of 0 gives 0 for both |
| Arithmetic.ComparisonsAre | tinycc.c:1210-1233 | each comparison is 1 if the integers compare so and else 0 |
| Arithmetic.NegationsAre | tinycc.c:1193-1195 | negation and logical not, in the language and on the machine's stack |
| Arithmetic.IncrementsAre | tinycc.c:495-533 | the four increments and decrements store the neighbouring value, wrapping at the ends, and mean the value before or after |
| Arithmetic.ArgumentsAre | tinycc.c:1155-1163 | what is printed is the low byte; a negative time to sleep is one of nearly 2^64 |
| Arithmetic.StrictLogicIs | tinycc.c:1202-1209 | the strict logical instructions, which the compiler never emits |
| SourceLaws.LogicIs | tinycc.c:621-668 | the short-circuit operators are nested conditionals |
| SourceLaws.DeMorgan | tinycc.c:621-668 | De Morgan's laws hold, side effects included |
| SourceLaws.BranchIs | tinycc.c:876-901 | a conditional takes its first branch for every value but 0 |
| SourceLaws.AssignIs | tinycc.c:670-703 | an assignment stores what it means and nothing else; `x op= e` is `x = x op e`, and `++x` is `x += 1` |
| SourceLaws.LeftFirst | tinycc.c:572-589 | the right operand sees what the left one did to a variable, and not the other way round |
| SourceLaws.WhileUnrolls | tinycc.c:819-844 | a loop whose body neither breaks nor continues ends as its test around one iteration and the loop again does, and neither ends if the other does not |
| SourceLaws.DoIsWhile | tinycc.c:846-874 | such a `do` is its body once and then the `while` |
| SourceLaws.ForIsWhile | tinycc.c:762-817 | a `for` whose body does not continue is its first clause and a `while` whose body ends in the step |
| Arithmetic.StringIs | tinycc.c:1147-1154 | a printed string ends at its first zero byte |
| Arithmetic.StartIs | tinycc.c:1128-1143 | a program starts at its first byte with an empty stack and 32 variables that are 0 |
| Arithmetic.EdgesAre | tinycc.c:1132-1133 | a push on a full stack and a jump behind the code end the program; a pop from an empty stack gives 0 |
| Toycc.HaltsIffTerminates | tinycc.c:1145-1262 | the machine halts if and only if the source terminates |
| Toycc.FuelDoesNotMatter | tinycc.c:982-1061 | the bound of the source interpreter has no influence on what a program that ends computes |
| Toycc.OutcomeOf | tinycc.c:952-965 | no break or continue escapes from a program without stray ones |
| Toycc.GenEncodable | tinycc.c:388-429 | every instruction the compiler can emit has an encoding |
| StackDiscipline.StackDiscipline | tinycc.c:1132-1133 | at every step of every run of a supported program the stack height is the one determined by the code offset alone; no pop meets an empty stack, no operand read leaves the code, no push meets a full stack |
| Boundaries.HeightsAtBoundaries | tinycc.c:467-980 | the offsets at which the stack discipline gives a height are exactly those where an instruction of the program starts |
| Boundaries.JumpsToBoundaries | tinycc.c:422-462 | every jump of a supported program, decoded where it stands in the emitted code, leads to the offset of an instruction of the program; only a plain jump may lead just past the last instruction instead, and only in a text with a return that ends in a conditional or loop |
| Placeholders.FilledOnce | tinycc.c:422-462 | a position is the operand of a jump if and only if it is counted once among what the statement and its loops fill in, what is on the break and continue lists left to the loop around, and what is known when emitted; it is never counted twice |
| Compile.OperandsFilled | tinycc.c:982-1051 | in an accepted program every jump operand is filled in exactly once, unless it was known when emitted, and nothing else is filled in |
| DepthLimit.DepthDecides | tinycc.c:1132-1133 | entered with any stack, the code of an expression without short-circuit operators reaches its end if and only if stack height plus static depth is at most 64 |
| StackDiscipline.StmtStep | tinycc.c:1145-1262 | from any offset inside a statement one step stays inside it with the right stack height, or leaves it through its end, its break or continue target, or a return; it halts only at a return or by a jump to the end of the code |
| Limits.JumpsPastCode | tinycc.c:1048-1051 | no jump leads just past the code if and only if the text has no return or does not end in a conditional or loop; and no conditional jump does if and only if the text has no return or what it ends in is not an `if` without `else`, a tested loop, or an `if` whose `else` is empty or ends so |
| Limits.JzToEndStops | tinycc.c:1246-1251 | any run that reaches a conditional jump to the end of the code stops there for good, variables, output and stack unchanged, whatever value it tests |
| Limits.LoneIfStops | tinycc.c:1246-1251 | a program that is one `if` around a return stops at its first jump whatever the condition |
| Limits.JumpToEndIsWrong | tinycc.c:1249 | a concrete such program prints in the source and not on the machine |
| Limits.StepPlacement | tinycc.c:763-770 | the step buffer is what would have been emitted in place if and only if it contains no short-circuit operator |
| Limits.StepWithLogicIsWrong | tinycc.c:806-811 | a concrete `for` with `&&` in its step prints only As in the source, while the machine goes on to print something else |
| Emitter.Context.PatchU32 | tinycc.c:138-140 | writes the four bytes in place and nothing else, and is counted if it is at the watched position |
| Emitter.Context.EmitJump | tinycc.c:422-429 | appends a jump with an open operand and returns where it is; fails exactly when there is no room |
| Emitter.Context.PatchLoopList | tinycc.c:459-462 | fills every site of a list with one target |
| Emitter.Context.AddLoopPatch | tinycc.c:451-457 | records a site in the innermost loop; fails when the list is full |
| Emitter.Context.EmitPuts | tinycc.c:393-402 | appends opcode, length and text |
| Emitter.Context.EmitAnd | tinycc.c:621-641 | emits `&&` with both jumps patched; the buffer then holds the instructions of the whole expression |
| Emitter.Context.EmitOr | tinycc.c:643-668 | the same for the logical or, with its three jumps |
| Emitter.Context.EmitExpr | tinycc.c:467-705 | emits exactly the code of the expression at the current place, counts its instructions, fills in any position as often as the expression does, and fails exactly when it does not fit |
| Emitter.Context.EmitFor | tinycc.c:762-817 | emits a whole `for`, step buffer merged and counted, all jumps patched, loop list restored |
| Emitter.Context.EmitWhile | tinycc.c:819-844 | emits a whole `while` with its patch lists resolved |
| Emitter.Context.EmitDoWhile | tinycc.c:846-874 | emits a whole `do` with its patch lists resolved |
| Emitter.Context.EmitBranch | tinycc.c:876-901 | emits `if` and `else`; sites inside are added to the enclosing loop's lists |
| Emitter.Context.EmitStmt | tinycc.c:903-980 | emits any statement; succeeds if and only if bytes, loop nesting, patch lists and step buffers suffice |
| Emitter.CompileStep | tinycc.c:763-774 | compiles a step into its own buffer at base -8 |
| Compile.EmitProgram | tinycc.c:1003-1051 | emits all statements and the epilogue that is due when no return was seen, filling in any position as often as `OperandsFilled` counts |
| Compile.CompileBuffer | tinycc.c:982-1061 | succeeds exactly on accepted programs, and then the buffer holds their complete file: magic, instruction count, code with every placeholder filled |
| Machine.Machine.StepOnce | tinycc.c:1145-1262 | one round of the interpreter loop over its arrays is one step of the abstract machine |
| Machine.Execute | tinycc.c:1122-1269 | the task entry point makes the calls of the abstract run, and tells whether the loop was left |
| Tasks.PickFirst | sched.c:20-28 | the scheduler picks the first runnable task in cyclic order, and the current one only when no other is |
| Tasks.ScheduleApproaches | sched.c:13-37 | every scheduler call chooses a given runnable task or moves strictly closer to it |
| Tasks.ScheduleEffect | sched.c:30-37 | due sleepers wake, the chosen task runs, the preempted one is ready, nothing else changes |
| Tasks.SleepEnds | task.c:137-147 | a sleeping task is made ready by exactly the scheduler calls from its wake time on, by none if that is 0, and is left alone until then |
| Sync.StepKeeps | semaphore.c:35-83 | every step of every primitive keeps the global invariant: at most one running task, which is the current one; blocked exactly when queued, once, in one queue; counts in range; no lost wakeup |
| Sync.QueueHasRoom | semaphore.c:17-25 | a wait queue has room whenever a task other than task 0 wants to join |
| Sync.BlockKeeps | msgqueue.c:64-71 | queueing oneself when nothing is available keeps the invariant and really queues |
| Sync.WakeKeeps | semaphore.c:56-70 | waking the first waiter restores the wakeup invariant after one more unit was offered |
| SyncRuns.AlwaysInv | sched.c:13-55 | the invariant holds in every reachable state |
| SyncRuns.SemaphoreConservation | semaphore.c:35-83 | in every reachable state the initial count plus the signals of the run equals the count plus the successful waits, and the count is not negative |
| SyncRuns.Fifo | msgqueue.c:40-156 | for every interleaving the log of sent messages is the log of received ones followed by the ring, which holds at most 16; every payload is at most 64 bytes |
| SyncRuns.StepMessages | msgqueue.c:40-59 | a waiting sender carries its own message, cut to 64 bytes, until it is queued |
| SyncEffects.WaitEffect | semaphore.c:35-53 | a wait takes one permit and nothing else happens, or the task is last in the queue, blocked |
| SyncEffects.SignalEffect | semaphore.c:56-70 | a signal adds one permit and makes just the longest waiter ready |
| SyncEffects.SendEffect | msgqueue.c:40-73 | a send with room appends a message of the sender's, of the given kind and with the first 64 bytes of the data, and makes the longest waiting receiver ready; without room the sender waits with this message |
| SyncEffects.ResendEffect | msgqueue.c:43-73 | a sender that comes back appends the message it waited with, or waits on with it |
| SyncEffects.TrySendEffect | msgqueue.c:75-98 | the non-blocking send appends the same message, or nothing happens |
| SyncEffects.ReceiveEffect | msgqueue.c:102-133 | a receive takes the oldest message whole and makes the longest waiting sender ready, or the task waits |
| SyncEffects.TryWaitEffect | semaphore.c:72-83 | the non-blocking wait takes one permit, or nothing happens |
| SyncEffects.TryReceiveEffect | msgqueue.c:135-156 | the non-blocking receive takes the oldest message, or nothing happens |
| SyncEffects.CreateEffect | task.c:29-80 | creation makes the first unused or dead slot after 0 ready, or nothing happens |
| SyncEffects.LeaveEffect | task.c:106-135 | after going to sleep or ending, another task runs and this one is asleep until its time, or dead |
| SyncEffects.KillEffect | task.c:114-128 | killing ends exactly a live task other than 0, and changes no other task unless it was the current one |
| SyncEffects.ReschedEffect | sched.c:13-37 | after its own scheduler call a blocked task is to try again with what it had in hand |
| SyncEffects.AllCallsEnabled | semaphore.c:35-83 | the step system rules out none of the calls a running task can make, but blocking ones by task 0 |
| SyncRuns.MutualExclusion | mutex.h:12-28 | a semaphore that starts at 1 and is signalled only by holders has at most one holder, and none exactly when its permit is free |
| SyncRuns.BoundedBypass | sched.c:20-28 | without task creation, a task that stays runnable is chosen after at most its cyclic distance in scheduler calls, whatever the others do |
| SyncRuns.WakeupArrives | semaphore.c:35-70 | if a permit, message or free slot is there and a task waits for it, there are woken tasks, and one of them is chosen within n-1 scheduler calls with its check still to make unless the run has killed them all |
| SyncLimits.KillWoken | task.c:114-128 | killing a task that was woken and has not checked keeps the invariant if and only if nobody else waits or the remaining woken tasks can take all there is |
| SyncLimits.KillBlocked | task.c:94-104 | killing a blocked task always breaks the queue invariant, and the wakeup that reaches its entry makes the dead task ready |
| SyncLimits.SignalThenKillStrands | semaphore.c:56-70 | a signal followed by killing the task it woke leaves a free permit that no one will come for, whenever a second task waits and the tasks already woken match the permits that were free |
| SyncLimits.TaskZeroQueuesTwice | sched.c:17-28 | when task 0 waits, the scheduler returns to it still blocked if and only if it had room in the queue and no other task can run or is due; its next check then queues it a second time |
| Kernel.WaitQueue.Push | semaphore.c:17-24 | appends to the circular queue; refuses exactly when 15 are queued |
| Kernel.WaitQueue.Pop | semaphore.c:27-33 | removes the oldest id; -1 when there is none |
| Kernel.TaskTable.Wake | task.c:137-147 | the loop over the table wakes exactly the due sleepers |
| Kernel.TaskTable.Schedule | sched.c:13-37 | the loop and the state updates compute the scheduler model |
| Kernel.TaskTable.Create | task.c:29-80 | takes the first unused or dead slot after task 0 |
| Kernel.TaskTable.Kill | task.c:114-128 | refuses task 0, ids out of range and slots without a live task; else the task is dead, and the scheduler runs if it was current |
| Kernel.Semaphore.Wait | semaphore.c:37-53 | one round of waiting: takes a permit if there is one, else queues and blocks the current task |
| Kernel.Semaphore.Signal | semaphore.c:56-70 | adds a permit and readies the longest waiter |
| Kernel.MessageQueue.Send | msgqueue.c:40-73 | one round of sending on the ring: append the sender, the kind and the first 64 bytes of the payload and wake a receiver, or queue up for room |
| Kernel.MessageQueue.Receive | msgqueue.c:102-133 | one round of receiving: remove the oldest and wake a sender, or queue up for a message |
| Kernel.MessageQueue.TrySend | msgqueue.c:75-98 | the non-blocking send: the ring grows by the sender, the kind and the first 64 bytes of the payload, or nothing changes |
| Kernel.MessageQueue.TryReceive | msgqueue.c:135-156 | the non-blocking receive |
| Kernel.WaitIsStep | semaphore.c:37-53 | what the semaphore code computes is the wait step of the system |
| Kernel.SignalIsStep | semaphore.c:56-70 | what the semaphore code computes is the signal step of the system |
| Kernel.SendIsStep | msgqueue.c:40-73 | what the queue code computes is the send step of the system, for first attempts and retries |
| Kernel.TryWaitIsStep | semaphore.c:72-83 | what the semaphore code computes is the non-blocking wait step |
| Kernel.TrySendIsStep | msgqueue.c:75-98 | what the queue code computes is the non-blocking send step |
| Kernel.TryReceiveIsStep | msgqueue.c:135-156 | what the queue code computes is the non-blocking receive step |
| Kernel.ScheduleIsStep | sched.c:13-55 | what the scheduler code computes is the timer tick, and the scheduler call of a blocking call |
| Kernel.CreateIsStep | task.c:29-80 | what the slot scan computes is the creation step |
| Kernel.LeaveIsStep | task.c:106-135 | what the sleep and exit code computes are the steps of the system |
| Kernel.KillIsStep | task.c:114-128 | what the kill code computes is the kill step |
| Kernel.ReceiveIsStep | msgqueue.c:102-133 | what the queue code computes is the receive step of the system |
| Heap.AlignUpIs | alloc.c:40-43 | without wrap-around, rounding up gives the least multiple not below the value |
| Heap.BumpIs | alloc.c:80-88 | bump allocation gives the least aligned address that leaves room for a header, through whichever of its branches |
| Heap.TotalHolds | alloc.c:54-56 | a block is large enough for header and request if and only if the sum does not leave 64 bits |
| Heap.FirstFitIs | alloc.c:60-77 | the search finds the first block that fits, and no earlier one does |
| Heap.AllocCases | alloc.c:60-103 | an allocation reuses the first block that fits, keeping the order of the rest, or else takes fresh memory if the request ends inside the heap, or else fails with nothing changed |
| Heap.AllocKeeps | alloc.c:49-103 | every allocation keeps the partition; its result is a new live address with the alignment and room asked for; failure changes nothing |
| Heap.FreeKeeps | alloc.c:105-119 | freeing a live block keeps the partition and puts it first on the list |
| Heap.HeapRunOk | alloc.c:41-119 | after any run of allocations and single frees, live and free blocks are pairwise disjoint within the part handed out, and sizes and alignment gaps add up |
| Heap.FreeListAcyclic | alloc.c:105-119 | after any run no block is twice on the free list or both free and live |
| Heap.UsedPlusFree | alloc.c:121-134 | used bytes, free bytes and gaps are the whole heap if and only if the last block does not reach past the end by more than the free list holds |
| Heap.NothingLost | alloc.c:121-134 | with 16-byte requests only, used and free bytes are the whole heap after every run |
| HeapEffects.TotalIs | alloc.c:54-56 | the size of a new block is the least multiple of the alignment that holds header and request, and at least 32 |
| HeapEffects.AllocEffect | alloc.c:49-103 | an allocation takes the first free block that is large enough and aligned, passing over none that is, or else the least address behind the part handed out, or else fails exactly when the request ends past the heap |
| HeapEffects.FreeEffect | alloc.c:105-119 | freeing puts the whole block in front of the list and changes nothing else |
| Allocator.Allocator.Kmalloc | alloc.c:49-103 | the list walk, unlinking and bump pointer over headers in memory compute the allocation model |
| Allocator.Allocator.Search | alloc.c:60-77 | the walk through headers finds the first fit and its predecessor |
| Allocator.Allocator.Kfree | alloc.c:105-119 | threading the header in front of the list computes the free model; freeing 0 does nothing |
| Allocator.Allocator.FreeCount | alloc.c:125-134 | the loop over the list adds up the free bytes, with wrap-around |
| Allocator.Unlinked | alloc.c:66-69 | redirecting the predecessor takes exactly one node out of the threaded list |
| Pages.OrIsSum | proc.c:18-50 | joining a page-aligned address and descriptor flags bit by bit is adding them |
| Pages.FlagBits | proc.c:20-50 | the attribute, shareability, access and type bits of block and page descriptors, joined, are the constants the model adds |
| Pages.TranslateIs | proc.c:94-126 | walking a process's tables, the hardware maps every address below 4 GB to itself with the attributes of the memory there, unless its page was made absent |
| Procs.GetL3Keeps | proc.c:56-90 | getting a level-3 table keeps the whole structure and every page's presence; it fails exactly when the block is whole and no slot or memory is left, and then changes nothing |
| Procs.SplitKeepsTranslation | proc.c:56-90 | splitting leaves the translation of every address below 4 GB as it was, address and attributes |
| Procs.UnmapPageKeeps | proc.c:132-144 | one turn hides its page exactly when the block is split or can be, and no other page changes |
| Procs.OthersKept | proc.c:56-90 | operations on one process are not seen by any other |
| Procs.UnmapFromAll | proc.c:128-145 | a range becomes absent as a whole if and only if slots and memory suffice for the whole blocks it touches |
| Procs.UnmapRangeExact | proc.c:128-145 | with positive size, exactly the pages overlapping the range become absent when slots and memory suffice, and never any other page |
| Procs.UnmapNothingAt | proc.c:128-131 | with size 0 one page is unmapped all the same, if and only if the address is not page aligned |
| Procs.UnmapFolds | proc.c:57-58 | addresses past 4 GB unmap the pages 4 GB below |
| ProcLife.CreateProcKeeps | proc.c:94-126 | making a process gives sound tables that map everything and own exactly what was newly allocated, or fails with the live blocks as before, however far it got |
| UserEffects.CreateProcIff | proc.c:94-126 | a process can be made if and only if the heap can serve its record and five pages |
| ProcLife.FreeProcKeeps | proc.c:147-155 | freeing gives back exactly what the process owns, each part once |
| ProcLife.Conserved | proc.c:94-155 | making a process, unmapping any ranges, of any size and wherever they end, and freeing it leaves the allocator's live blocks as they were |
| ProcCode.PageMemory.GetL3 | proc.c:56-90 | the code that fills a new table in place computes the splitting model |
| ProcCode.PageMemory.FillBlocks | proc.c:109-115 | the loop over a level-2 table overwrites every entry, whatever memory held before |
| ProcCode.PageMemory.UnmapRange | proc.c:128-145 | the loop over pages computes the unmapping model |
| ProcCode.PageMemory.Create | proc.c:94-126 | the creation code, failure paths included, computes the model |
| ProcCode.PageMemory.FreeParts | proc.c:147-155 | the freeing loops release every part that was allocated, in order |
| Isolation.BarKeeps | user.c:56-66 | removing one stack from one table keeps the whole system sound, changes no other pair of tasks, and succeeds exactly when the block is split or can be |
| Isolation.BarFromKeeps | user.c:53-66 | the loop bars all pairs with the new task if and only if every turn could, and changes no other pair |
| Isolation.CleanUpKeeps | task.c:94-104 | ending a task frees exactly what it owned, each block once, and leaves every other task's table alone |
| Isolation.UserCreateIsolated | user.c:27-75 | creating a user task always keeps the system sound, and keeps all stacks isolated if and only if there was room to bar them: a level-3 slot in the new table for each whole block its neighbours' stacks are in, one in each neighbour's table that maps the block of the new stack whole, and a page of memory for each |
| Isolation.CouldIfRoom | user.c:53-66 | every turn of the loop can go ahead if and only if there is room for all of them before the first |
| Isolation.StackIsolation | user.c:27-75 | over every run of creations, kills and other heap use with room to bar, each user task's table maps nothing of any other user task's stack and all of its own, for the hardware's walk |
| UserEffects.UserCreateEffect | user.c:27-75 | a user task is made if and only if two stacks, a slot and a process can be had; it gets the first free slot and exactly these, and no other task changes; otherwise everything is given back, except that a slot without kernel stack stays taken |
| UserEffects.SpawnEffect | task.c:29-80 | a kernel task gets the first free slot and 4096 bytes of stack |
| UserEffects.KillEffect | task.c:94-128 | killing a task in use, other than 0, empties its slot, frees exactly what it owned and leaves all other slots alone; any other id changes nothing |
| Isolation.NothingLeaks | task.c:94-104 | when all tasks have ended, only the rest of the kernel's blocks are live |
| UserCode.UserTasks.UserTaskCreate | user.c:27-75 | the creation code, on top of the page-table code and the allocator code, computes the model, failure paths included |
| UserCode.UserTasks.Isolate | user.c:53-73 | the loop, with the new table held aside until the end and every unmapping done in place in memory, computes the barring of all pairs |
| UserCode.UserTasks.Spawn | task.c:29-80 | the slot scan and the allocation of the kernel stack compute the model; without memory the slot stays taken |
| UserCode.UserTasks.Kill | task.c:94-128 | ending a task frees its stacks and tables through the allocator code and clears its slot, as the model says |
| Frame.AlignDownIs | tiny_c_compiler/allocator.cpp:23-37 | rounding gives the nearest aligned offset below if and only if the offset is not positive or is aligned already |
| Frame.LayoutIs | tiny_c_compiler/allocator.cpp:107-179 | laying out a statement places exactly its symbols, aligned, between the two offsets, and symbols that can be live together never overlap |
| FrameLimits.BranchesShare | tiny_c_compiler/allocator.cpp:166-179 | the frame of a conditional is as deep as the deeper of its branches would be alone, not as their sum |
| Frame.ParamsFirst | tiny_c_compiler/allocator.cpp:206-230 | placing the parameters first and the body after is the layout of the body alone |
| Frame.FrameOk | tiny_c_compiler/generator.cpp:474-476 | every symbol of a function lies, aligned, in the frame below the frame pointer, and symbols in equal or nested blocks never overlap |
| FrameBytes.TypeIs | tiny_c_compiler/allocator.cpp:46-93 | a symbol has as many bytes as it has elements times their width, which is 8, 4 or 1 and also its alignment |
| FrameBytes.TogetherIs | tiny_c_compiler/allocator.cpp:107-179 | two symbols can be live together if and only if some block declares one and the other is declared in it or inside it |
| FrameBytes.BytesApart | tiny_c_compiler/allocator.cpp:107-230 | every byte of every array element is in the frame, elements are aligned to their width, and no byte belongs to two symbols that can be live together |
| FrameBytes.NoWaste | tiny_c_compiler/allocator.cpp:113-127 | a symbol goes to the highest aligned place below those before it |
| FrameLimits.PlacedIff | tiny_c_compiler/allocator.cpp:107-230 | every symbol of a function gets a place below the frame pointer if and only if each symbol of size 0 comes after one of positive size in its own block's list or in that of an enclosing block, parameters counting as placed before all |
| Frame.Symbols.Allocate | tiny_c_compiler/allocator.cpp:107-179 | the recursive methods with a by-reference offset compute the layout |
| Frame.Symbols.AllocateFunction | tiny_c_compiler/allocator.cpp:206-230 | the whole function's layout and its frame size |
| VfsTree.AddTree | vfs.c:130-136 | adding an entry keeps the tree if and only if its directory has none of that name |
| VfsTree.MkdirKeeps | vfs.c:114-137 | making a directory keeps the filesystem sound, whatever the path |
| VfsTree.OpenKeeps | vfs.c:141-180 | opening keeps it sound if and only if it does not add an entry beside one of the same name after cutting |
| VfsTree.ApplyKeeps | vfs.c:114-251 | every operation keeps it sound, with that one exception |
| VfsPaths.WalkIs | vfs.c:88-109 | for every path the character-by-character walk follows the components between slashes, those longer than 31 characters in runs of 31 |
| VfsPaths.ResolveIs | vfs.c:80-110 | resolving any path but the empty one is following these names from the root |
| VfsPaths.ChunksOfSplit | vfs.c:35-110 | the names followed to a path are those followed to its parent part and then its name part, as splitting cuts them, if and only if the last component fits 31 characters and so does what is before it, slashes at its end aside |
| VfsPaths.ResolveAgreesWithSplit | vfs.c:35-60 | looking such a path up is looking its last component up under the parent that splitting gives |
| VfsPaths.FsRunOk | vfs.c:114-251 | every run with good paths keeps acyclic parent chains to the root through used directories, unique sibling names, and open descriptors on used files |
| VfsPaths.SoundFromBoot | vfs.c:64-76 | from the initial filesystem on, every such run keeps all of it |
| VfsPaths.LongNameTwin | vfs.c:144-164 | opening a name longer than its buffer beside a file whose name fills the buffer creates a second entry of that name |
| VfsPaths.PathRoundTrip | vfs.c:80-110 | resolving the path spelled by an inode's parent chain gives that inode |
| VfsNames.MkdirResolves | vfs.c:114-137 | a directory just made is where its path leads if and only if the path is good, and every path that led somewhere still leads there |
| VfsNames.OpenResolves | vfs.c:141-180 | a descriptor just opened is on the file its path leads to if and only if the file was there or the path is good; no other lookup is disturbed unless an entry of the same name was added |
| VfsNames.LongNameLost | vfs.c:114-137 | a directory made under one name of more than 31 characters is not found by its own path |
| VfsNames.FortyLetters | vfs.c:114-137 | a concrete such call right after boot |
| VfsNames.UnlinkResolves | vfs.c:234-251 | after removal exactly the paths that led to the entry lead nowhere, every other lookup is as before, and no descriptor is on it |
| VfsNames.UnlinkUndoesMkdir | vfs.c:234-251 | removing a directory just made gives back the filesystem there was, if and only if its path is good |
| VfsEffects.FlagsAre | vfs.h:10-16 | the creation, appending and truncation flags are bits 2, 3 and 4 |
| VfsEffects.MkdirEffect | vfs.c:114-137 | a directory is made if and only if the parent part leads to a directory without an entry of that name and an inode is free; it is empty, in the first free inode, and nothing else changes |
| VfsEffects.OpenThereEffect | vfs.c:141-180 | opening what is there fails for directories, empties the file if asked, and gives the first free descriptor, at the start or, if appending, at the end |
| VfsEffects.OpenNewEffect | vfs.c:141-180 | opening what is not there makes an empty file if and only if that is asked for and a place, an inode and memory are there |
| VfsEffects.UnlinkEffect | vfs.c:234-251 | a file or an empty directory other than the root is removed and exactly the descriptors on it are closed; anything else is refused with nothing changed |
| VfsEffects.SeekEffect | vfs.c:217-230 | a seek counts from the start, the position or the end, succeeds exactly within the contents, and changes nothing but that position |
| VfsEffects.CloseEffect | vfs.c:182-184 | a closed descriptor is free and no other changes |
| VfsEffects.NotOpen | vfs.c:188-215 | nothing is read or written through a descriptor that is not open |
| VfsFiles.WriteContent | vfs.c:201-215 | a write splices what fits below 16384 into the contents, zero-filling any gap, and changes no other file or descriptor; it is refused exactly when nothing fits |
| VfsFiles.ReadContent | vfs.c:188-199 | a read gives the contents from the position on, cut to the length, and changes no file |
| VfsFiles.WriteThenRead | vfs.c:188-230 | seeking back and reading gives what was written |
| VfsFiles.WriteAfterTruncate | vfs.c:166-171 | a write through a descriptor whose file was truncated through another gives zeros up to its position, then the data |
| VfsCode.SplitPath | vfs.c:35-60 | the loop and copies compute the split |
| VfsCode.FileSystem.VfsResolve | vfs.c:80-110 | the nested loops compute the resolution |
| VfsCode.FileSystem.VfsMkdir | vfs.c:114-137 | the code computes the model, refusals included |
| VfsCode.FileSystem.VfsOpen | vfs.c:141-180 | the code computes the model; a file created stays even when no descriptor is free |
| VfsCode.FileSystem.VfsClose | vfs.c:182-184 | frees the descriptor; numbers out of range are ignored |
| VfsCode.FileSystem.VfsRead | vfs.c:188-199 | the code computes the model |
| VfsCode.FileSystem.VfsWrite | vfs.c:201-215 | the code computes the model |
| VfsCode.FileSystem.VfsSeek | vfs.c:217-230 | the code computes the model |
| VfsCode.FileSystem.VfsUnlink | vfs.c:234-251 | the loops refuse non-empty directories, close all descriptors on the file and clear the slot |

## Left out

- Machine.Execute: rounds are bounded by a parameter, because a loop that need not end has no proof of termination; the bound is arbitrary.
- Toycc.CompilerCorrect: 32-bit arithmetic is modelled as wrapping and shared by source and machine, because C leaves overflow undefined; division by zero gives 0 on both sides, as in the machine's code.
- Compile.CompileBuffer: starts from a syntax tree with slots resolved; the character-level front end, its quirks, and several function bodies in one file are not modelled.
- Emitter.Context.EmitExpr: loops over operators of equal precedence are recursion over the tree; the order in which placeholders are filled within one expression may differ, the bytes do not.
- Kernel.Semaphore.Wait: is one round of the retry loop; the loop, with the scheduler call between rounds, is the control points of the step system.
- Kernel.MessageQueue.Send: is one round of the retry loop, as above; bytes of a ring slot past the payload length are not modelled; the buffer of a sender is taken not to change while it waits.
- Kernel.MessageQueue.Receive: is one round of the retry loop, as above.
- Sync.StepKeeps: a critical section, a scheduler call, task creation and sleeping are atomic, and creation always finds memory for a stack.
- Kernel.TaskTable.Create: allocation of the stack and its failure are in `UserCode.UserTasks.Spawn`; the name and the register context are not modelled.
- Allocator.Allocator.Kmalloc: the rounding mask is modelled as taking the remainder off, which is the same for powers of two; locks are not modelled.
- Heap.HeapRunOk: freeing a pointer twice, or one that is not live, is not modelled.
- Pages.TranslateIs: hierarchical attribute bits of table descriptors, access permissions and TLB maintenance are not modelled.
- ProcCode.PageMemory.Create: the record's own bytes are an object, not words of heap memory.
- UserCode.UserTasks.UserTaskCreate: the branch for platforms without an MMU, entry points and register set-up are not modelled; a stack left in a dead slot is never found, because ending a task clears it.
- Frame.FrameOk: offsets are unbounded integers, so frames of 2 GB or more are not modelled; functions with more than 8 parameters are refused by the generator before layout.
- VfsCode.FileSystem.VfsRead: lengths are not negative.
- VfsCode.FileSystem.VfsWrite: file data is a sequence inside its inode and copied as a whole; lengths are not negative.
- VfsTree.OpenKeeps: whether memory for a new file is there is a parameter.
- The AArch64 and x86 code generators, lexer and parser of the C compiler: they need a machine semantics outside the repository.
- Device drivers, FAT32, ELF loading, the shell, the editor and the string routines: input and output, or easy members.
- Context switch, vectors, spin locks, barriers and system registers: assembly, represented as atomic steps.
- Freeing the running stack in `task_exit`, and preemption inside `task_create_named` and `task_sleep_ms`.
