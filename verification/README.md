# A verified model of LLMC

LLMC compiles multi-threaded LLVM IR into a next-state function for a model checker. This project models what
the emitted function does, the algorithms that emit it, the state-space explorers that call such functions, and
the lock-free benchmark programs it is used on, and proves what they promise.

`dafny verify dfyconfig.toml` checks everything.

## Modules

| module | what it is about |
|---|---|
| `Ir`, `Grouping` | collapsability predicates; cutting basic blocks into transition groups; program locations |
| `Machine`, `PcClosure`, `SwitchDefault` | a small IR, the emitted `model_step`, and when a pc it meets has no case |
| `GlobalStatus`, `RunInvariants`, `Startup` | `dmc_nextstates`, runs, the status machine, how a run begins |
| `Threads`, `ThreadIds`, `MainIds` | results and joins; thread ids; programs whose main has an id of its own |
| `Allocation` | the per-process bump allocators |
| `Counterexamples` | runs of concrete programs in which something unwanted happens |
| `Reduction`, `Views`, `Outcomes`, `Deadlocks`, `IdleSlots`, `Regions`, `RunningIds` | merged stepping is a partial-order reduction that keeps exactly the outcomes and the deadlocks, lifted step by step from fixed threads to reachable states |
| `LostOutcomes`, `LateReturns` | runs in which it loses one: a group accesses memory twice, or main has a borrowed id |
| `Phi` | sequential stores for phi nodes |
| `ChunkStack` | calls and returns on a stack of immutable chunks |
| `Memory` | per-process chunk memories and tagged pointers as one flat memory |
| `Calls`, `Cells`, `Locals` | what the instructions of `Machine` do, in terms of chunk stack, bytes and blocks |
| `HashConsing`, `Explorer`, `ParallelExplorer` | the hash-consing store; breadth-first exploration with one worker and with many |
| `MsQueue`, `SortedList`, `HashMap`, `PrefixSum` | the benchmark programs, for any number of threads |
| `MsQueueProgress`, `SortedListProgress` | the queue and the list are lock-free |
| `HashMapProgress` | when all calls of the map can return |
| `MsQueueAsserts`, `MsQueueCounts` | when the queue's asserts hold; the modification counts of its pointers |
| `Schedules`, `Counting` | interleavings and counting, used by these |

Steps that the source takes one at a time on shared state are state machines over runs: `Step`, a schedule or
a number of steps, and invariants that every step keeps. Objects that methods update are classes whose
methods are proved against functions on values; the theorems are about those functions.

## Assumptions

- The chunk store behind the emitted code is not part of this model. It is taken as persistent and canonical:
  equal content gives equal ids, and nothing stored is ever changed. Reading behind the end of a chunk gives
  zeros, and writing there extends it.
- One unit is used for the length above bit 40 of an id. The source allocates that many 32-bit words for a
  download (`libllmc/generation/StateManager.cpp:138`) and copies that many bytes
  (`libllmc/generation/ProcessStack.cpp:358-365`).
- Memory is sequentially consistent, as LLMC makes it: memory orders are read and dropped
  (`libllmc/include/llmc/LLDMCModelGenerator.h:3410`).
- A `model_step` that does not terminate reports nothing here. Fuel occurs only to say "for some number of
  iterations" or "terminates"; `Machine.StepFuel` shows that it has no influence on results.
- `Machine` has simultaneous phi assignment, a list of frames, one memory of cells and pcs of block and index. That the
  emitted code's stores, chunk stack, bytes and locations mean the same is proved in `Phi`, `Calls`, `Cells` and
  `Grouping`; `Calls` takes parameters to have the first registers, and `Cells` takes a cell to be 8 bytes.
- Theorems about thread ids, and the reduction theorem, are about runs in which the 32-bit counter of started threads
  has not wrapped; the wrap itself creates thread 0. Theorems about results and joins need no such assumption.
- The reduction theorem is about a fixed set of threads: states from which pthread_create is no longer called,
  wherever in a run that is. The threads may join each other; behind a join with a result pointer, the group may go on
  with local instructions only.

## Where the code does not do what it seems meant to

- The call that would stop a step at a fatal check is commented out (`libllmc/include/llmc/LLDMCModelGenerator.h:852-861`), so
  `ENDED_FAILURE` is never entered (`RunInvariants.StatusInRange`).
- The rule that groups consecutive pthread_create or pthread_join calls never applies (`Grouping.PairRuleIsDead`).
- A pthread_create inside a group that finds no free slot makes the step take the switch default and report nothing
  (`SwitchDefault.TakesDefaultIff`, `Counterexamples.DefaultIsTaken`).
- main has no thread id of its own: after static constructors that create threads it can run with the id of one that
  has ended, and replace its result (`ThreadIds.ReturnsOnceIff`, `Counterexamples.MainBorrowsId`); joins can then be
  merged too late (`LateReturns.LateReturnIsLost`).
- A join with a result pointer shares a group with the memory access behind it, so the two are one step and an
  outcome in which another thread comes between them is lost (`LostOutcomes.LateLoadIsLost`).
- A memory size that wraps hands out addresses again (`Allocation.BlocksAreDisjointIff`,
  `Counterexamples.WrapBlocksOverlap`).
- A phi that refers to itself, or two that swap, make the phi worklist stall (`Phi.SelfReferenceIsCycle`,
  `Phi.SwapIsCycle`).
- A direct call can lose an argument that is read from an earlier parameter's register
  (`ChunkStack.SwappedArgumentsAreLost`).
- A store of a type whose size is not a multiple of 4 writes over the bytes behind it (`Memory.TypedStoreExactIff`).
- Clone-and-modify behind the end of a chunk shows uninitialised memory (`HashConsing.GapsMatterIff`).
- The list benchmark's main drops the failures of its own adder (`SortedList.VerifyPassesIff`).

## Model

| member | source | states |
|---|---|---|
| Ir.FrontIff | libllmc/include/llmc/LLDMCModelGenerator.h:1696-1762 | what may stand in front of a group's main instruction is exactly what neither accesses shared memory, synchronises, handles exceptions nor runs other code |
| Ir.PredicatesDiffer | libllmc/include/llmc/LLDMCModelGenerator.h:1764-1892 | the other two predicates differ from that one on pthread_join and on calls to functions with a body only |
| Grouping.TailShape | libllmc/include/llmc/LLDMCModelGenerator.h:1945-1973 | after a group's main instruction come only back-collapsable ones, no call has a successor in its group, and the group stops no earlier than it must |
| Grouping.PairRuleIsDead | libllmc/include/llmc/LLDMCModelGenerator.h:1964-1970 | the create/create and join/join pair rule never lengthens a group, because the break after a call comes first |
| Grouping.GroupShape | libllmc/include/llmc/LLDMCModelGenerator.h:1920-1992 | a group is front-collapsable instructions, then at most one that is not, then back-collapsable ones only; a call that is not collapsed in front ends it |
| Grouping.GroupsPartition | libllmc/include/llmc/LLDMCModelGenerator.h:1684-1690 | the groups of a block are non-empty, follow each other without gap or overlap to the block's end, and carry the emitter flag exactly when they have an instruction that is not front-collapsable |
| Grouping.HeadsAreGroupStarts | libllmc/include/llmc/LLDMCModelGenerator.h:794-800 | the group heads, the cases of the emitted switch, are exactly the first instructions of the groups |
| Grouping.HeadAfterGroup | libllmc/include/llmc/LLDMCModelGenerator.h:867-870 | the location stored when a group runs is that of the next group's head |
| Grouping.NoHeadInsideGroup | libllmc/include/llmc/LLDMCModelGenerator.h:794-800 | no instruction strictly inside a group has a case of its own |
| Grouping.LocationsDistinct | libllmc/include/llmc/LLDMCModelGenerator.h:1933-1936 | program locations of different instructions differ and none is 0 |
| Grouping.Grouper.AssignLocation | libllmc/include/llmc/LLDMCModelGenerator.h:1955-1958 | numbers an instruction with the next location unless it has one; nothing else is renumbered |
| Grouping.Grouper.CreateTransitionGroupsForInstruction | libllmc/include/llmc/LLDMCModelGenerator.h:1920-1992 | the two loops make exactly the group GroupEnd describes, continue right behind it, and leave every instruction up to there numbered in order |
| Grouping.Grouper.CreateTransitionGroupsForBasicBlock | libllmc/include/llmc/LLDMCModelGenerator.h:1684-1690 | terminates and adds exactly the partition of the block |
| Grouping.Grouper.CreateTransitionGroups | libllmc/include/llmc/LLDMCModelGenerator.h:1650-1690 | afterwards every instruction of every block is in exactly one group; groups are in block order and within one block, and start exactly at the group heads; instructions are numbered in order from 1 |
| Machine.StepFuel | libllmc/include/llmc/LLDMCModelGenerator.h:742-812 | the outcome of model_step does not depend on how many iterations one allows it, once that is enough |
| Machine.ModelStep | libllmc/include/llmc/LLDMCModelGenerator.h:742-841 | the emitted loop, updating the output state vector group by group, computes StepProcess: free groups until the second emitting one, a halted pc, a blocked join, or a pc without a case |
| PcClosure.GroupKeepsClosed | libllmc/include/llmc/LLDMCModelGenerator.h:3677-3683 | running a group leaves all pcs and all return pcs at group heads; after a pthread_create without a free slot the pc is on that call, and all are at heads exactly when it is a group of its own |
| PcClosure.LoopKeepsClosed | libllmc/include/llmc/LLDMCModelGenerator.h:742-841 | whatever model_step reports has closed pcs, and it comes to a pc without a case only right after a pthread_create that failed inside its group |
| SwitchDefault.TakesDefaultIff | libllmc/include/llmc/LLDMCModelGenerator.h:815-819 | a step that ends takes the switch default exactly when no slot is free and the first emitting group on its way ends in a pthread_create that is not its first instruction, with no join in front that blocks |
| SwitchDefault.DefaultIffFailedInside | libllmc/include/llmc/LLDMCModelGenerator.h:815-819 | the same read off the step's events: the last one is a failed create inside its group |
| SwitchDefault.HeadsNeverTakeDefault | libllmc/include/llmc/LLDMCModelGenerator.h:815-819 | where every pthread_create opens a group, no step of any run takes the default, whether slots run out or not |
| Counterexamples.DefaultIsTaken | libllmc/include/llmc/LLDMCModelGenerator.h:3677-3683 | a program and a run, with all six slots taken, after which a step takes the default; as in the next ones, every pointer is to a global and joined ids come from registers |
| GlobalStatus.NextStates | libllmc/include/llmc/LLDMCModelGenerator.h:1042-1148 | dmc_nextstates returns exactly the successors: the starts of constructors and main, the reports of all processes, or the raised status when there is none |
| GlobalStatus.RunsCompose | libllmc/include/llmc/LLDMCModelGenerator.h:1004-1149 | runs compose, and so do their records of events |
| RunInvariants.StatusMonotone | libllmc/include/llmc/LLDMCModelGenerator.h:1042-1148 | the status never falls, rises by at most one, and in a running phase rises exactly when no process can step |
| RunInvariants.StatusInRange | libllmc/include/llmc/LLDMCModelGenerator.h:89-96 | no run goes beyond ENDED; ENDED_FAILURE is never entered |
| RunInvariants.OnlyEndedStatesAreFinal | libllmc/include/llmc/LLDMCModelGenerator.h:1044-1048 | for in-range statuses a state has no successor exactly when its status is ENDED or ENDED_FAILURE |
| RunInvariants.BlockedJoinsEndThePhase | libllmc/include/llmc/LLDMCModelGenerator.h:3715-3719 | a state in which every thread left waits in a join counts as one in which no process can step, so its phase ends |
| RunInvariants.ReachableIsClosed | libllmc/include/llmc/LLDMCModelGenerator.h:794-820 | in every state of every run every pc is 0 or the first instruction of a group |
| Threads.JoinEnabledIffReturned | libllmc/include/llmc/LLDMCModelGenerator.h:3696-3714 | in every reachable state a join on a nonzero id is enabled exactly when that id has returned a value, and reads the value returned last; a join on id 0 is never enabled |
| Threads.JoinStaysEnabled | libllmc/include/llmc/LLDMCModelGenerator.h:3696-3714 | a join once enabled stays enabled along every continuation |
| Threads.JoinValueStaysIff | libllmc/include/llmc/LLDMCModelGenerator.h:3696-3714 | and reads the same value exactly unless the id returns again and ends with another one |
| Threads.JoinsDeliverReturns | libllmc/include/llmc/LLDMCModelGenerator.h:3696-3724 | every join that happened delivered what its thread had returned last before |
| ThreadIds.CreatedIdsAreDistinct | libllmc/include/llmc/LLDMCModelGenerator.h:3592-3637 | until the counter wraps, created threads get increasing ids from 2 on, whether slots are reused or not |
| ThreadIds.LiveIdsDiffer | libllmc/include/llmc/LLDMCModelGenerator.h:3592-3637 | until then no two live processes have the same id, in every reachable state |
| ThreadIds.ReturnsOnceIff | libllmc/generation/ProcessStack.cpp:417-437 | until then no nonzero id returns twice, exactly unless main was started with the id of a thread that had returned and returns a value itself |
| MainIds.MainHasIdZero | libllmc/include/llmc/LLDMCModelGenerator.h:957-990 | if the static constructors stay in blocks without pthread_create, or there are none, main has id 0 |
| MainIds.EveryIdReturnsOnce | libllmc/generation/ProcessStack.cpp:417-437 | and every nonzero id returns at most once |
| MainIds.JoinValueStays | libllmc/include/llmc/LLDMCModelGenerator.h:3696-3724 | and an enabled join reads the only value its thread ever returns, along every continuation |
| Counterexamples.MainBorrowsId | libllmc/generation/ProcessStack.cpp:417-437 | a program and a run in which main starts with the id of an ended thread and replaces its result |
| Allocation.BlocksAreDisjointIff | libllmc/include/llmc/LLDMCModelGenerator.h:2979-2987 | in every reachable state the blocks from alloca and malloc are disjoint from each other and the globals and not null, exactly when before each nonempty one its process had requested less than 2^32 bytes and none reaches another process's blocks |
| Allocation.OnlyWrapsMatter | libllmc/include/llmc/LLDMCModelGenerator.h:2979-2987 | with requests of at most 2^56 - 2^32 bytes the first of these conditions is exact |
| Allocation.AllocationsAreDisjoint | libllmc/include/llmc/LLDMCModelGenerator.h:2979-2987 | under that condition no address of a block is null, in the globals or in another block |
| Counterexamples.WrapBlocksOverlap | libllmc/include/llmc/LLDMCModelGenerator.h:2983-2985 | a program and a run, two mallocs of 2^31 bytes and one more, whose blocks overlap |
| Reduction.MergedRunsAreInstrRuns | libllmc/include/llmc/LLDMCModelGenerator.h:668-845 | soundness for every well-formed program: whatever merged model_step runs reach, single-instruction interleaving reaches |
| Outcomes.LoopDrains | libllmc/include/llmc/LLDMCModelGenerator.h:742-841 | after its memory access model_step runs local instructions and stops, at the latest where they halt or settle |
| Views.GroupKind | libllmc/include/llmc/LLDMCModelGenerator.h:1945-1973 | every group is quiet, or is quiet up to one memory access and local behind it; it emits if it has one |
| Outcomes.LoopAdvances | libllmc/include/llmc/LLDMCModelGenerator.h:742-841 | each model_step of a process that is on the way to a memory access or to termination either performs exactly that access, with quiet instructions before and local ones behind it, or comes nearer, past the joins in between |
| Outcomes.CatchesUp | libllmc/include/llmc/LLDMCModelGenerator.h:668-845 | as many model_steps as it takes lead it through the access, or to termination, whatever joins without a result pointer lie before |
| Outcomes.Simulate | libllmc/include/llmc/LLDMCModelGenerator.h:668-845 | completeness: a single-instruction run to a state in which every process has terminated or is at a memory access or join is matched, up to the relation, by a merged run from every state related to its start |
| Outcomes.ReductionPreservesOutcomes | libllmc/include/llmc/LLDMCModelGenerator.h:668-845 | for threads that may join each other but create none, with pairwise different ids, merged stepping and single-instruction interleaving reach the same all-terminated states |
| Deadlocks.LoopWaits | libllmc/include/llmc/LLDMCModelGenerator.h:3715-3719 | a model_step of a process that will wait in a join comes nearer to it, or reports nothing because the join is in the group it would run |
| Deadlocks.DeadlocksPreserved | libllmc/include/llmc/LLDMCModelGenerator.h:668-845 | single-instruction interleavings get stuck in a state, every process terminated or waiting in a join, exactly when merged runs get stuck where only instructions in front of the blocking joins are left to it |
| Deadlocks.StuckIsDeadlock | libllmc/include/llmc/LLDMCModelGenerator.h:668-845 | wherever no model_step reports anything, single instructions run into such a state as well, without touching memory or results |
| IdleSlots.AllOutcomesPreserved | libllmc/include/llmc/LLDMCModelGenerator.h:668-845 | the same where only running processes need different ids, so for states with unused or vacated slots |
| Regions.OutcomesPreservedInRegion | libllmc/include/llmc/LLDMCModelGenerator.h:668-845 | the same in every well-formed program, from states whose threads run in blocks that are closed under branches and calls and create no threads |
| IdleSlots.AllDeadlocksPreserved | libllmc/include/llmc/LLDMCModelGenerator.h:668-845 | deadlocks are preserved where only running processes need different ids |
| Regions.DeadlocksPreservedInRegion | libllmc/include/llmc/LLDMCModelGenerator.h:668-845 | and in every well-formed program, from where its threads create no more |
| RunningIds.RunningIdsDiffer | libllmc/include/llmc/LLDMCModelGenerator.h:3592-3637 | in every reachable state no two running threads have the same id |
| RunningIds.NoneHasReturnedIff | libllmc/generation/ProcessStack.cpp:417-437 | in a reachable state the id of a running thread has a result exactly when that thread is main with the id of a thread that had returned |
| RunningIds.ReachableOutcomesPreserved | libllmc/include/llmc/LLDMCModelGenerator.h:668-845 | from every reachable state from which no more threads are created, merged runs and single-instruction interleavings reach the same all-terminated states, joins included |
| RunningIds.ReachableDeadlocksPreserved | libllmc/include/llmc/LLDMCModelGenerator.h:668-845 | from every such state, both get stuck in the same states, up to the instructions in front of the blocking joins |
| RunningIds.ReachableStuckIsDeadlock | libllmc/include/llmc/LLDMCModelGenerator.h:3715-3719 | when a phase ends because no process can step, all have terminated or single instructions deadlock too |
| RunningIds.JoiningOutcomesPreserved | libllmc/include/llmc/LLDMCModelGenerator.h:668-845 | outcomes and deadlocks are preserved with no condition on the run if the static constructors create no threads |
| LostOutcomes.LateLoadIsLost | libllmc/include/llmc/LLDMCModelGenerator.h:1743 | a program and a reachable state from which merged stepping loses an outcome, because a join that stores a result and the load behind it form one group; all else that the theorem asks for holds |
| LateReturns.LateReturnIsLost | libllmc/generation/ProcessStack.cpp:417-437 | a program and a reachable state from which merged stepping loses an outcome, because main runs with the id of a thread that had returned and that is still joined; all else that the theorem asks for holds |
| Phi.CollectDependencies | libllmc/include/llmc/LLDMCModelGenerator.h:3794-3817 | each phi of the target block is listed with the phi it takes its value from, whichever block that is in |
| Phi.HasDepender | libllmc/include/llmc/LLDMCModelGenerator.h:3830-3837 | the scan over all remaining entries finds a depender exactly when there is one |
| Phi.StoresForPhis | libllmc/include/llmc/LLDMCModelGenerator.h:3823-3897 | for every iteration order: the phis left over are exactly those on a dependency cycle (a self-dependency is one), so the assert holds exactly when there is none, and the stores made are in order |
| Phi.StoresAssign | libllmc/include/llmc/LLDMCModelGenerator.h:3844-3847 | run in sequence the stores give each phi off the cycles its incoming value from before the branch, and change nothing else |
| Phi.StoresMeanParallel | libllmc/include/llmc/LLDMCModelGenerator.h:3790-3897 | the stores equal the simultaneous assignment, always when nothing is left over, and otherwise exactly on registers where each cyclic phi already holds its incoming value |
| Phi.SelfReferenceIsCycle | libllmc/include/llmc/LLDMCModelGenerator.h:3897 | a phi that takes its own value, legal in a one-block loop, trips the assert |
| Phi.SwapIsCycle | libllmc/include/llmc/LLDMCModelGenerator.h:3897 | two phis that swap trip the assert, and without it are both left over |
| Phi.BranchRunsTheStores | libllmc/include/llmc/LLDMCModelGenerator.h:3899-3966 | after a branch instruction of `Machine` the pc is the start of the block it selects, and on a block without a phi cycle the registers are those that the stores made for the edge from the instruction's own block leave |
| Phi.BranchAssigns | libllmc/include/llmc/LLDMCModelGenerator.h:3942-3962 | each phi of the block entered gets the value it lists for the block branched from, as it was before the branch; no other register changes |
| ChunkStack.IdsAreCanonical | libllmc/generation/ProcessStack.cpp:178-193 | ids are equal exactly when contents are |
| ChunkStack.StackIdsAreCanonical | libllmc/generation/ProcessStack.cpp:331-336 | two stack ids are equal exactly when the stacks they stand for are; 0 stands for the empty stack and for no other |
| ChunkStack.InvokePushes | libllmc/generation/ProcessStack.cpp:173-196 | a call adds one frame with the caller's pc, registers and result register to the list of frames |
| ChunkStack.ReturnPops | libllmc/generation/ProcessStack.cpp:337-437 | a return takes the first frame off and restores its pc and registers but for the result register; from an empty stack it halts, zeroes the registers and records the thread's result |
| ChunkStack.Run | libllmc/generation/ProcessStack.cpp:155-380 | however calls nest, a well-nested run ends on the stack id it began on and only adds chunks |
| ChunkStack.CallReturns | libllmc/generation/ProcessStack.cpp:155-380 | a call with everything inside it restores pc, stack id and every register except the result register, which holds the value returned |
| ChunkStack.RunKeepsFrames | libllmc/generation/ProcessStack.cpp:155-380 | a well-nested run leaves the stack standing for the same list of frames |
| ChunkStack.DirectPassesArgsIff | libllmc/generation/ProcessStack.cpp:206-221 | the one-at-a-time copy of a direct call passes the arguments meant, on all registers, exactly when no argument is read from an earlier parameter's slot, unless that parameter got its own slot |
| ChunkStack.IndirectCallPasses | libllmc/generation/ProcessStack.cpp:288-302 | after a call through a pointer each parameter's slot holds its argument's value from before the call, and all other registers are as before |
| ChunkStack.DirectCallPassesInTurn | libllmc/generation/ProcessStack.cpp:206-221 | after a direct call a parameter whose argument is an earlier parameter's slot equals that parameter, every other one holds its argument's value from before the call, and all other registers are as before |
| ChunkStack.DirectCallPassesIff | libllmc/generation/ProcessStack.cpp:206-221 | direct calls pass on all registers what calls through pointers pass, exactly when no argument is read from an earlier parameter's slot, unless that parameter got its own slot |
| ChunkStack.SwappedArgumentsAreLost | libllmc/generation/ProcessStack.cpp:206-221 | f(x, y) calling f(y, x) directly passes y twice; the form for calls through pointers passes y, x |
| ChunkStack.Process.PushFrame | libllmc/generation/ProcessStack.cpp:173-196 | uploads registers and frame and stores the new stack id, as SaveFrame says |
| ChunkStack.Process.PushDirect | libllmc/generation/ProcessStack.cpp:155-232 | pushes the frame and passes the arguments one at a time |
| ChunkStack.Process.PushIndirect | libllmc/generation/ProcessStack.cpp:234-311 | pushes the frame and passes the arguments, all loaded beforehand |
| ChunkStack.Process.Pop | libllmc/generation/ProcessStack.cpp:313-438 | computes Return: restores by copying as many units as the id's length, or zeroes |
| Calls.CallIsInvoke | libllmc/generation/ProcessStack.cpp:155-232 | a call of `Machine`, on a list of frames and unbounded registers, is the emitted direct call: if chunk stack and register file stand for the process before it, they do after it |
| Calls.RetIsReturn | libllmc/generation/ProcessStack.cpp:313-438 | and so for a return: the caller's frame with the value returned in its result register, or termination with the thread's result recorded |
| Memory.PackingInverseIff | libllmc/include/llmc/LLDMCModelGenerator.h:2815-2841 | on 64-bit words: unpacking a packed pointer gives back process and offset exactly when process + 1 < 256 and offset < 2^56 |
| Memory.PackedIsPointer | libllmc/include/llmc/LLDMCModelGenerator.h:2830-2848 | within a byte for process + 1 and 56 bits for the offset, the packed word is the number that all other theorems call the pointer |
| Memory.PointerInverseIff | libllmc/include/llmc/LLDMCModelGenerator.h:2815-2828 | on those numbers unpacking inverts packing exactly for offsets below 2^56 |
| Memory.ReadIsFlat | libllmc/include/llmc/LLDMCModelGenerator.h:2850-2865 | reading a block through the creator's chunk reads the flat memory |
| Memory.WriteIsFlat | libllmc/include/llmc/LLDMCModelGenerator.h:2931-2940 | writing a block through the creator's chunk is the flat write, at every address |
| Memory.DisjointBlockKept | libllmc/include/llmc/LLDMCModelGenerator.h:2931-2940 | a write leaves every disjoint block as it was, whoever allocated either |
| Memory.OtherAllocationsKept | libllmc/include/llmc/LLDMCModelGenerator.h:2979-2987 | along every run whose requests fit, an access inside one allocation leaves the block of every other allocation as it was |
| Memory.GlobalsKept | libllmc/include/llmc/LLDMCModelGenerator.h:2979-2987 | and the globals |
| Memory.TypedStoreExactIff | libllmc/include/llmc/LLDMCModelGenerator.h:2889-2929 | a typed store changes nothing but its value's bytes, whatever lies behind the value in local storage, exactly for sizes that are multiples of 4 |
| Memory.Memories.Access | libllmc/include/llmc/LLDMCModelGenerator.h:2850-2865 | downloads what the flat memory holds at the block |
| Memory.Memories.StoreBytes | libllmc/include/llmc/LLDMCModelGenerator.h:2931-2940 | is the flat write |
| Memory.Memories.Load | libllmc/include/llmc/LLDMCModelGenerator.h:2873-2886 | a typed load reads the flat memory |
| Memory.Memories.Store | libllmc/include/llmc/LLDMCModelGenerator.h:2889-2929 | a typed store is the flat write of value and padding |
| Memory.Memories.AtomicLoad | libllmc/include/llmc/LLDMCModelGenerator.h:3384-3423 | *ret = *ptr on the flat memory |
| Memory.Memories.AtomicStore | libllmc/include/llmc/LLDMCModelGenerator.h:3436-3473 | *ptr = *val on the flat memory |
| Memory.Memories.AtomicCompareExchange | libllmc/include/llmc/LLDMCModelGenerator.h:3475-3556 | succeeds exactly when the blocks at ptr and `expected` were equal; then the block at ptr holds what `desired` held, otherwise the block at `expected` holds what ptr held; every byte outside the block written is as before, for blocks that may overlap too |
| Memory.Memories.CmpXchg | libllmc/include/llmc/LLDMCModelGenerator.h:2426-2478 | returns the old value and whether it was the expected one, and stores exactly in that case |
| Cells.FreshMemoriesStandFor | libllmc/include/llmc/LLDMCModelGenerator.h:2850-2865 | chunk memories in which nothing was written stand for the memory of `Machine` in which nothing was |
| Cells.LoadReadsBytes | libllmc/include/llmc/LLDMCModelGenerator.h:2850-2886 | where each cell of `Machine` stands for 8 bytes of memory, a load puts the value of the bytes at its address in its register |
| Cells.StoreWritesBytes | libllmc/include/llmc/LLDMCModelGenerator.h:2889-2940 | a store writes the value's bytes and no other cell's |
| Cells.CmpXchgComparesBytes | libllmc/include/llmc/LLDMCModelGenerator.h:2426-2478 | a cmpxchg succeeds exactly when the bytes at its address are the expected ones and then writes the desired ones; it reports the value found, and 1 or 0 |
| Cells.JoinWritesBytes | libllmc/include/llmc/LLDMCModelGenerator.h:3686-3731 | a join that goes on writes the bytes of the thread's result if it has a place for it, and returns 0 |
| Cells.JoinWaits | libllmc/include/llmc/LLDMCModelGenerator.h:3715-3719 | a join is blocked exactly when its thread has no result |
| Cells.CreateWritesBytes | libllmc/include/llmc/LLDMCModelGenerator.h:3584-3672 | a pthread_create starts a thread in the first free slot, with its argument and a fresh id, and writes the id's bytes for its caller; no other slot changes |
| Locals.CreateIsRetried | libllmc/include/llmc/LLDMCModelGenerator.h:3677-3683 | a pthread_create that finds no free slot changes nothing, not even its own pc |
| Locals.AllocationHandsOut | libllmc/include/llmc/LLDMCModelGenerator.h:2979-2987 | an alloca or malloc returns the address of the block it is said to allocate, of the size asked for, and the process's memory grows by that size in 32 bits |
| Locals.ComputeApplies | libllmc/include/llmc/LLDMCModelGenerator.h:2249-2286 | an arithmetic instruction writes the operation's result on its operands' values, and nothing else |
| Locals.NothingHappens | libllmc/include/llmc/LLDMCModelGenerator.h:2319-2321 | a phi reached from within its block, and unreachable, do nothing |
| Startup.RunsStartFresh | libllmc/include/llmc/LLDMCModelGenerator.h:4050-4095 | a run begins with one idle process per slot, no results, memory behind the globals free, and each address holding its initialiser or zero |
| Startup.PhasesAreSetUp | libllmc/include/llmc/LLDMCModelGenerator.h:957-1010 | starting the constructors and starting main put process 0 at that function's first instruction on an empty stack, and change nothing else |
| Startup.ConstantGlobalsStay | libllmc/include/llmc/LLDMCModelGenerator.h:4064-4095 | in every reachable state a global that no instruction writes holds its initialiser |
| MsQueue.StepKeepsFits | tests/performance/msq.3.3p/test.cpp:130-256 | every step of every call keeps the queue invariant: one chain of nodes, Head not past Tail, Tail at most one behind, and what each call has read is still usable |
| MsQueue.AssertsHold | tests/performance/msq.3.3p/test.cpp:132-247 | in every run with any number of calls no assert in enqueue or dequeue fails, Head never passes Tail, and Tail lags the last node by at most one |
| MsQueue.FirstInFirstOut | tests/performance/msq.3.3p/test.cpp:130-256 | the k-th dequeue to take a node returns the value of the k-th enqueue to link one; each call is logged once, exactly from that step on |
| MsQueue.StepsRefineQueue | tests/performance/msq.3.3p/test.cpp:173-191 | every step refines an abstract queue: linking appends, moving Head removes the front, which is what the call returns, and nothing else changes it |
| MsQueue.QueueIsInMemory | tests/performance/msq.3.3p/test.cpp:130-256 | in every state a walk along next from Head comes to an end, there is only one, and it finds the abstract queue |
| MsQueue.EmptyOnlyIfEmptyDuringCall | tests/performance/msq.3.3p/test.cpp:231-235 | dequeue returns false only if the queue was empty in some state during that call |
| MsQueue.FreedNodeIsBehindHead | tests/performance/msq.3.3p/test.cpp:254 | the node a dequeue frees has left the queue |
| MsQueueProgress.SomeCallProgresses | tests/performance/msq.3.3p/test.cpp:130-256 | lock-freedom: from every reachable state, the calls together take at most nine steps each before one of them links a node or moves Head or Tail |
| MsQueueProgress.RunsEnd | tests/performance/msq.3.3p/test.cpp:130-256 | whatever the schedule, unfinished calls take boundedly many steps in all, so every run of the calls ends |
| MsQueueAsserts.FailsIff | tests/performance/msq.3.3p/test.cpp:132-247 | a step fails exactly if the call is at one of the asserts and its condition does not hold |
| MsQueueAsserts.NeverFailsIff | tests/performance/msq.3.3p/test.cpp:132-247 | for calls with any values, at least one of them a dequeue: no assert fails in any run exactly if all values enqueued are nonzero and below 1000 |
| MsQueueAsserts.EmptyGivesZero | tests/performance/msq.3.3p/test.cpp:231-235 | a dequeue that has returned false has set its result to 0 |
| MsQueueCounts.CountsAreMoves | tests/performance/msq.3.3p/test.cpp:130-256 | in every run the modification counts of Head and Tail are the numbers of their moves in 32 bits, and that of a next pointer tells whether it was set |
| MsQueueCounts.EqualCountsIff | tests/performance/msq.3.3p/test.cpp:130-256 | in any two states Head's counts are equal exactly when its numbers of moves differ by a multiple of 2^32, and so for Tail: what the compare-and-swaps rely on |
| SortedList.ListHoldsTheAdded | tests/performance/sortedlinkedlist/test.c:32-49 | in every state of every run the list from root is finite, without repetition and ascending, and has exactly the nodes of the calls that have added theirs, with their values |
| SortedList.NothingIsLost | tests/performance/sortedlinkedlist/test.c:32-49 | a published node stays in the list with its data along every continuation |
| SortedListProgress.SomeCallAdds | tests/performance/sortedlinkedlist/test.c:32-49 | lock-freedom: from every reachable state, n calls take at most 2n + 6 steps each before one of them adds its node |
| SortedListProgress.RunsEnd | tests/performance/sortedlinkedlist/test.c:32-49 | whatever the schedule, unfinished calls take boundedly many steps in all |
| SortedList.StrictIffValuesDistinct | tests/performance/sortedlinkedlist/test.c:32-49 | the list is strictly increasing exactly when the values added so far are distinct |
| SortedList.Verify | tests/performance/sortedlinkedlist/test.c:79-93 | the loop of verify counts the list, up to one more than the expected length, and finds out whether neighbours increase |
| SortedList.VerifyPassesIff | tests/performance/sortedlinkedlist/test.c:51-77 | once all calls have returned: the count is as asserted exactly when the number of workers divides the length and no call of main's own adder failed, whose failures main drops; the order is as asserted exactly when the values are distinct |
| HashMap.KeysAreWriteOnce | tests/performance/hashmap/test.c:50-56 | a key slot once written keeps its key along every continuation |
| HashMap.EachKeyInOneSlot | tests/performance/hashmap/test.c:43-69 | in every state each key is in at most one slot |
| HashMap.FoundReadsInserted | tests/performance/hashmap/test.c:58-64 | a call that returned 0 has read a nonzero value that a call with the same key, which returns 1, has stored |
| HashMap.ProbesNeverGoRound | tests/performance/hashmap/test.c:49-68 | with at least as many slots as distinct keys no call passes as many slots as there are |
| HashMap.OneInsertPerKey | tests/performance/hashmap/test.c:43-69 | once all calls have returned, exactly one call per distinct key returned 1, and the map holds that key with its value |
| HashMap.ReturningTakesRoom | tests/performance/hashmap/test.c:49-68 | all calls can return only if there are at least as many slots as distinct keys |
| HashMapProgress.BusyStepsAreBounded | tests/performance/hashmap/test.c:49-68 | with at least as many slots n as distinct keys, and whatever the schedule, the calls take at most 2n + 1 steps each besides waiting for a value |
| HashMapProgress.WaitsForOwner | tests/performance/hashmap/test.c:57-61 | a call that waits, waits for one with the same key that is about to store its value, or for ever, because the value stored is 0 |
| HashMapProgress.AllCanReturnIff | tests/performance/hashmap/test.c:43-69 | wherever a run of calls with nonzero values has come to, it can go on until all have returned, exactly if there are at least as many slots as distinct keys |
| HashMap.Verify | tests/performance/hashmap/test.c:100-112 | the loop of verify counts the used slots |
| HashMap.CountsAddUp | tests/performance/hashmap/test.c:184 | once all calls have returned, used slots and failed calls add up to the number of calls |
| HashConsing.FindInvertsInsert | include/llmc/treestore.h:183-226 | after any sequence of puts and clone-and-modifies, looking up the id an operation returned gives that operation's bytes; contents are distinct, and all come from an operation |
| HashConsing.SameIdIffSameBytes | include/llmc/ssgen.h:236-261 | two operations return the same id exactly when their bytes are equal, whatever chains of modifications led there |
| HashConsing.IdsAreForEver | include/llmc/treestore.h:183-210 | later operations change no id and no content |
| HashConsing.GapsMatterIff | include/llmc/ssgen.h:255-258 | the bytes of a modified copy depend on what fresh memory holds exactly when the offset is behind the end |
| HashConsing.TypeStore.Insert | include/llmc/treestore.h:183-210 | returns the id of an equal content if there is one, and otherwise appends with the next id; says which |
| HashConsing.TypeStore.Find | include/llmc/treestore.h:212-219 | returns the content with that id |
| HashConsing.TypeStore.Size | include/llmc/treestore.h:229-232 | the number of distinct contents |
| HashConsing.TreeStore.Insert | include/llmc/treestore.h:487-491 | grows the vector of stores if need be, inserts in the type's store and leaves the other types alone |
| HashConsing.TreeStore.PutChunk | include/llmc/ssgen.h:236-242 | puts a chunk in its type's store |
| HashConsing.TreeStore.CloneAndModifyChunk | include/llmc/ssgen.h:252-261 | puts the modified copy of a chunk in its type's store |
| Explorer.ReportFits | include/llmc/ssgen.h:216-224 | storing a reported state, and queueing it when new, keeps the level invariant |
| Explorer.LevelEnds | include/llmc/ssgen.h:193-207 | when a level's queue is empty, the states queued for the next one are exactly those at the next distance |
| Explorer.SingleThreadedExplorer.ReportTransition | include/llmc/ssgen.h:216-224 | stores the state and queues it exactly when it was not stored yet |
| Explorer.SingleThreadedExplorer.Go | include/llmc/ssgen.h:186-207 | on finite spaces it terminates; the store then is exactly the set of reachable states, each expanded once at the level that is its shortest distance, and the counter is the number of transitions |
| ParallelExplorer.StepFits | include/llmc/ssgen.h:413-432 | every step of every worker keeps: stored states are taken, queued or about to be queued, one of these, once; and a nonempty queue means a worker still runs |
| ParallelExplorer.StoppedMeansComplete | include/llmc/ssgen.h:407-436 | once all workers have stopped, for any number of them and any interleaving, the store is the set of reachable states and each was expanded exactly once |
| ParallelExplorer.NeverTwice | include/llmc/ssgen.h:444-464 | at no time has a state been expanded twice or without being reachable |
| ParallelExplorer.RunsEnd | include/llmc/ssgen.h:407-436 | on a finite space the number of steps of workers that have not stopped is bounded, so all of them stop |
| PrefixSum.Step1Fits | tests/performance/prefixsum/test.c:39-62 | every load and store of localprefixsum keeps: each worker has written its region's prefix sums so far and nothing else |
| PrefixSum.InlinePrefixSum | tests/performance/prefixsum/test.c:83-93 | turns the array into its prefix sums in place |
| PrefixSum.RegionSumsAddUp | tests/performance/prefixsum/test.c:125 | the prefix sums of the region sums are the sums of the input up to the regions' ends |
| PrefixSum.Step3Fits | tests/performance/prefixsum/test.c:64-81 | every load and store of localadd keeps: each worker has added its addend once to what it passed and to nothing else |
| PrefixSum.PrefixSumIsExact | tests/performance/prefixsum/test.c:39-132 | for every input, division, number of workers and interleavings, out[j] finally is the 32-bit value of the sum of in[0..j], and the sum itself when it fits |
| PrefixSum.AssertHolds | tests/performance/prefixsum/test.c:134 | on the benchmark's input the last element is what main asserts |

## Left out

- LLVM's own classes, IRBuilder and the helpers for emitted control flow: what the emitted code means is modelled instead.
- The chunk store itself and the tree below it, and calls into it: replaced by an abstract store, as said above.
- Everything for the older LTSmin interface (`ChunkMapper`, LTS types), command-line drivers, linking and file search: input and output, or not built.
- `hashtable`, `hashtable_bucket`, `hashtable_bucket_slab` and `ssgen_st_2`: insertion and lookup there disagree on where entries start, so there is no contract to prove.
- The chunk functions of `ssgen_mt`, which cast to the wrong class; of the multi-worker explorer only the work queue is modelled, with its unlocked enqueue (`include/llmc/ssgen.h:450`) taken as atomic.
- In `Machine`: switch, invoke, indirect calls, atomicrmw, fences, memcpy, inline asm, floats and the `assume_nonatomic_collapsable` mode. `Grouping` has all instruction kinds and both modes.
- MAX_THREADS copies of each transition group: only the one that is emitted is modelled.
- Values in `Machine` are unbounded integers and each memory cell holds one; widths and bytes are modelled where they matter, in `Memory`, `Allocation`, `Threads` and `PrefixSum`.
- RunningIds.ReachableOutcomesPreserved: does not cover threads that are created between the two states; nothing is said about runs that never end. Its two conditions on joins are needed (LostOutcomes.LateLoadIsLost, LateReturns.LateReturnIsLost), but are not shown to be exact.
- IdleSlots.AllOutcomesPreserved: for programs that never create threads; Regions.OutcomesPreservedInRegion lifts that, also for the deadlocks.
- Outcomes.ReductionPreservesOutcomes: needs different ids in all slots, even unused ones; IdleSlots.AllOutcomesPreserved lifts that.
- Outcomes.LoopDrains: a step of the completeness proof, stated for programs without create.
- MsQueue.FirstInFirstOut: nodes are not reused, as in the benchmark; with reuse the modification counts would matter.
- MsQueue.AssertsHold: for nonzero values below 1000, which is what the asserts demand; MsQueueAsserts.NeverFailsIff has the converse.
- HashMap.ProbesNeverGoRound: says that no call probes in vain, not that the scheduler lets every call finish.
- HashMap.FoundReadsInserted: a call that finds its key waits for the value, so it ends only if the inserting call is scheduled. Fair schedules are not modelled; HashMapProgress bounds all other steps.
- ChunkStack.ReturnPops: a thread result that is neither integer nor pointer, which the source replaces by null, is not modelled.
- ChunkStack.Run: chunk stores are taken to have fewer than 2^40 chunks, the width of the index in an id.
- Explorer.SingleThreadedExplorer.Go: termination needs a finite set of states closed under transitions; on infinite spaces the source does not terminate either.
- PrefixSum.PrefixSumIsExact: the floating-point computation of the regions is replaced by any division into consecutive regions.
- PrefixSum.Step1Fits: `sums` is wide enough for any sum here; in the source it has 64 bits, which fewer than 2^32 ints cannot overflow.
- The philo and linkedlist benchmarks: philosopher 0 writes the free marker, so there is no exclusion to prove; linkedlist adds nothing to sortedlinkedlist.
