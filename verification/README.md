# Scheduling invariants of the NPU compiler core

This project models the scheduling core of the compiler as Dafny code and proves that its graph rewrites keep the meaning
of the program they work on.

The centre is `BarrierInfo`, the control graph of hardware barriers. Tasks are indices in program order; every task has a
queue, an executor and a number of barrier slots. A barrier orders each of its producers before each of its consumers, a
hardware queue orders its tasks by index. Happens-before is the transitive closure of both, and a run is an execution
sequence in which no task starts before all its predecessors (`TaskGraph.dfy`). The four maps between tasks and barriers
are the fields of a class whose invariant says that they are inverses of each other (`BarrierInfo.dfy`). Each pass is a
method on that class, proved against statements about orders and runs: optimization with temporary FIFO barriers, the task
control map, redundancy removal, splitting by slots, one wait barrier per task, splitting the graph at sync points and the
check of that split (and which splits it accepts), removal of dependencies that queues imply, and sharing of barriers
along a queue. `SplitOrder.dfy` gives the exact order after a split, and `SplitPrograms.dfy` runs the split and the passes
behind it one after the other.

Around it stand five smaller cores: dependencies of asynchronous operations (`AsyncDeps.dfy`), the two-pass packing of
profiling records (`ProfilingBuffers.dfy`), the loop of the static allocator (`StaticAllocation.dfy`), execution groups
(`ExecutionGroups.dfy`) and the text format of pass pipelines (`PipelineText.dfy`,
`PipelineCutter.dfy`, `PipelineRoundTrip.dfy`).

Conventions. Edges are forward when every producer has a smaller index than every consumer; the passes rely on it and
state it as a precondition. Sets are iterated in any order, as the hash and small sets of the program may be. A thrown
exception is the result `ok == false`. Slot counts, executors, queues and the answers of the memory allocator are
arbitrary parameters. Where two task sets must not share storage (the set passed to `removeProducers`), the model passes
a copy.

## Model

| member | source | states |
|---|---|---|
| `OptimizeBarriers.Optimize` | src/vpux_compiler/src/core/barrier_info.cpp:2180-2242 | `optimizeBarriers` on any forward graph: accepted exactly when no dependency leads past a sync point; then all edges stay forward and barriers plus queue order allow exactly the same runs; the temporary barriers leave no trace; in no block are two producers or two consumers of a barrier still ordered by the barriers and queues of the block; in every block barriers whose producer sets were iterated in the same order are merged, so without the slot check no two used barriers share their single producer, and with it two are only left if together they exceed the limit and no barrier that gained consumers exceeds it |
| `BlockSplit.SplitToBlocks` | src/vpux_compiler/src/core/barrier_info.cpp:948-1411 | `splitControlGraphToBlocks` on any forward graph: succeeds exactly when the block size is at least 2, there are no sync points yet and every barrier has both sides (or no split is needed); no happens-before pair is lost, edges stay forward and inside a block or from a sync point to the next block, the sync points are exactly the tasks `t` with `(t + 1) % blockSize == 0` that another task follows, and blocks are given by `t / blockSize`; every task of a block runs before its sync point and after the previous one, and the new order is exact: by index across sync points, as before the split inside a block; the last task is the one exception and escapes exactly when it waits for nothing and shares its queue with no task since the last sync point |
| `SingleWait.EnsureSingleWait` | src/vpux_compiler/src/core/barrier_info.cpp:3081-3125 | the iteration ends on every forward graph and its check for progress never fires; it gives up only if some task does not fit, and otherwise in iterative mode every task ends up with at most one wait barrier; the result is that of visiting the tasks one after the other, each visit with the exact new state of `SingleWait.Eliminate`, at most once in all if not iterative; if the direct predecessors of every task with several wait barriers leave room for it, the task graph does not change at all; edges stay forward, no ordering is lost if every producer fits, and every created barrier uses at most twice the available slots if every task fits |
| `RemoveRedundant.Remove` | src/vpux_compiler/src/core/barrier_info.cpp:3677-3752 | pruning all barriers of a block against one closure taken before any removal keeps exactly the runs; afterwards no two producers and no two consumers of a barrier within a block are ordered, sync points apart; succeeds whenever every block is acceptable at the start (the exact condition of a block is that of `RemoveRedundant.RemoveInBlock`), and only if the first one is |
| `SplitPrograms.SplitAndTidy` | src/vpux_compiler/src/core/barrier_info.cpp:948-1411 | the passes compose: after the split the program is read again with its sync points, removal of redundant users and optimization both accept it, no ordering of the original program is lost on the way, tasks are ordered by index across sync points and exactly as in the original program inside a block (the last task with its exact exception), and no two producers or consumers of a barrier are ordered inside a block |
| `ControlMap.BuildTaskControlMap` | src/vpux_compiler/src/core/barrier_info.cpp:3227-3331 | for any graph, backward edges included, a row holds exactly the tasks that an in-block path of the recorded shape reaches, over barriers and (with FIFO awareness) queue order: steps up, then steps down, then steps up, then possibly one step down and one last step; the four maps are restored exactly; it throws exactly when some task leads outside the block and this is not ignored |
| `VariantSplit.SplitExceeding` | src/vpux_compiler/src/core/barrier_info.cpp:1907-1924 | the task-to-task relation is exactly unchanged; a barrier keeps its users exactly if it is within the slot-sum limit (when enabled) or has both sides within the available slots, and is emptied otherwise; the new barriers are one per greedy batch of the producers, then of the consumers; if every task fits, every barrier ends up legal |
| `SplitCheck.VerifySplit` | src/vpux_compiler/src/core/barrier_info.cpp:1413-1617 | a true verdict means every edge stays in its block or leads from a sync point to the next block, and every task of a block with a sync point runs before it by barriers plus queue order; on any graph the verdict is true exactly when the recorded in-block paths exist that the check asks for, and it throws exactly when all edges are legal but no queue is known or the first task that fails is on no known queue; all maps are left as they were |
| `ExplicitDependencies.RemoveExplicit` | src/vpux_compiler/src/core/barrier_info.cpp:3774-3836 | barriers plus queue order stay the same relation, hence the same runs; afterwards no side of a barrier that lives on one queue depends on that queue; the consistency check fails exactly for an original barrier without consumers that a sync point updates |
| `SharedBarriers.Share` | src/vpux_compiler/src/core/barrier_info.cpp:2692-2724 | on any forward graph: some barrier gives way to a chain exactly if, with the tasks that would share it, it needed more slots than available; otherwise every task ends up with exactly the barriers of its nearest neighbour on the queue that has some, and the runs are the same; in any case the result is that of two scans per queue, in which the tasks without barriers join those of the next task that has some, each join with the exact new state of `SharedJoin.JoinBarrier`; edges stay forward; no ordering is lost if every task whose neighbour on the queue is not driven by a barrier fits and so does the first consumer of every barrier it waits for; with one queue a first task that is too large and comes first in its barriers loses them all if its neighbour is idle |
| `AsyncDeps.AsyncDepsInfo.HasCycle` | src/vpux_compiler/src/core/async_deps_info.cpp:386-422 | the three-colour search ends and returns true exactly when some operation depends on itself; a false result comes with a schedule of all operations in which each follows its dependencies |
| `AsyncDeps.AsyncDepsInfo.OptimizeDepsMap` | src/vpux_compiler/src/core/async_deps_info.cpp:231-280 | in full and in partial mode the order of every acyclic map is kept (same runs) and no kept dependency is bypassed by two original ones; with at most 10000 operations whose dependencies have smaller indices no remaining dependency can be dropped; with more, exactly the dependencies covered in at most three steps are gone; the consumer map stays the inverse |
| `ProfilingBuffers.BufferScheduler.AddProfilingOps` | src/vpux_compiler/src/core/act_profiling.cpp:89-174 | for every sequence of task sizes the replay opens buffers exactly where planning did: a planned buffer is always available, the views tile the buffers without gap or overlap, the copies tile the DDR area of exactly the size reported; it refuses exactly an empty record set |
| `StaticAllocation.RunLinearScan` | src/vpux_compiler/src/core/allocation_info.cpp:23-228 | every run of the loop yields a legal trace: operations run in order, a buffer is allocated once, used only between allocation and release, released once and only after all its users ran, even under memory pressure; before each operation exactly those dead buffers go, by the end cycles of their last users, that ended by its begin or without which the allocator refuses, and then only its own buffers are allocated; if it fails, exactly the operations before some operation ran and the allocator refused the buffers that this operation still needs beside those in memory; otherwise all operations ran and buffers whose users are all processed are released at the end, by end cycle |
| `TaskGraph.PruneKeepsOrder` | src/vpux_compiler/src/core/barrier_info.cpp:2185-2191 | dropping every edge that is bypassed in the graph before any removal loses no order on a forward graph (induction on the span of the edge) |
| `TaskGraph.SameOrderSameRuns` | src/vpux_compiler/src/core/barrier_info.cpp:2180-2242 | the same happens-before order means the same runs |
| `TaskGraph.RunsDetermineOrder` | src/vpux_compiler/src/core/barrier_info.cpp:2180-2242 | conversely, on forward graphs the runs determine the order |
| `TaskGraph.KeepsOrderRuns` | src/vpux_compiler/src/core/barrier_info.cpp:2456-2690 | losing no order means allowing no new run |
| `TaskGraph.NoDeadlock` | src/vpux_compiler/src/core/barrier_info.cpp:2180-2242 | a forward graph never blocks: every unfinished run can start a task |
| `Barriers.BarrierInfo.AddProducer` | src/vpux_compiler/src/core/barrier_info.cpp:734-738 | exact new state; the task-side and barrier-side maps stay inverses of each other |
| `Barriers.BarrierInfo.AddConsumer` | src/vpux_compiler/src/core/barrier_info.cpp:709-713 | exact new state; the task-side and barrier-side maps stay inverses of each other |
| `Barriers.BarrierInfo.RemoveProducer` | src/vpux_compiler/src/core/barrier_info.cpp:878-882 | exact new state; the task-side and barrier-side maps stay inverses of each other |
| `Barriers.BarrierInfo.RemoveConsumer` | src/vpux_compiler/src/core/barrier_info.cpp:891-895 | exact new state; the task-side and barrier-side maps stay inverses of each other |
| `Barriers.BarrierInfo.AddProducers` | src/vpux_compiler/src/core/barrier_info.cpp:748-756 | exact new state; the task-side and barrier-side maps stay inverses of each other |
| `Barriers.BarrierInfo.AddConsumers` | src/vpux_compiler/src/core/barrier_info.cpp:723-732 | exact new state; the task-side and barrier-side maps stay inverses of each other |
| `Barriers.BarrierInfo.RemoveProducers` | src/vpux_compiler/src/core/barrier_info.cpp:758-763 | exact new state; the task-side and barrier-side maps stay inverses of each other |
| `Barriers.BarrierInfo.RemoveConsumers` | src/vpux_compiler/src/core/barrier_info.cpp:773-778 | exact new state; the task-side and barrier-side maps stay inverses of each other |
| `Barriers.BarrierInfo.AddNewBarrier` | src/vpux_compiler/src/core/barrier_info.cpp:812-826 | exact new state; the task-side and barrier-side maps stay inverses of each other |
| `Barriers.BarrierInfo.SetWaitBarriers` | src/vpux_compiler/src/core/barrier_info.cpp:846-860 | exact new state; the task-side and barrier-side maps stay inverses of each other |
| `Barriers.BarrierInfo.SetUpdateBarriers` | src/vpux_compiler/src/core/barrier_info.cpp:862-876 | exact new state; the task-side and barrier-side maps stay inverses of each other |
| `Barriers.BarrierInfo.ResetBarrier` | src/vpux_compiler/src/core/barrier_info.cpp:914-926 | exact new state; the task-side and barrier-side maps stay inverses of each other |
| `FifoDependencies.CreateDependencies` | src/vpux_compiler/src/core/barrier_info.cpp:2817-2873 | the temporary barriers add exactly the order of the chosen queues within the task range; all original barriers keep their users |
| `FifoDependencies.RemoveDependencies` | src/vpux_compiler/src/core/barrier_info.cpp:3042-3078 | the check that no temporary barrier has users left never fails, and the original barriers are exactly as they were |
| `FifoDependencies.HasBarrierDependency` | src/vpux_compiler/src/core/barrier_info.cpp:3513-3528 | finds a common barrier of two tasks exactly if there is one |
| `OptimizeBarriers.OptimizeProducers` | src/vpux_compiler/src/core/barrier_info.cpp:2244-2303 | a producer keeps a barrier exactly if no task of the block that runs after it updates the barrier too; throws exactly when a dependency leaves the block |
| `OptimizeBarriers.OptimizeConsumers` | src/vpux_compiler/src/core/barrier_info.cpp:2305-2364 | a consumer keeps a barrier exactly if no task of the block that runs before it waits for the barrier too |
| `OptimizeBarriers.OptimizeSameProducers` | src/vpux_compiler/src/core/barrier_info.cpp:2366-2434 | merging barriers with equal producers leaves the task graph unchanged and only the first of them, up to merges that would exceed the slot limit when it is checked: merges within the limit are done, others are not |
| `OptimizeBarriers.ProducersPrunedOrder` | src/vpux_compiler/src/core/barrier_info.cpp:2244-2303 | producer pruning keeps the happens-before order of a forward graph |
| `OptimizeBarriers.ConsumersPrunedOrder` | src/vpux_compiler/src/core/barrier_info.cpp:2305-2364 | consumer pruning keeps the happens-before order of a forward graph |
| `OptimizeBarriers.MergeKeepsGraph` | src/vpux_compiler/src/core/barrier_info.cpp:2366-2434 | merging two barriers with the same producers keeps the task graph |
| `OptimizeBarriers.BarriersOf` | src/vpux_compiler/src/core/barrier_info.cpp:508-540 | lists, in ascending order, exactly the barriers used by a range of tasks |
| `OptimizeBarriers.OptimizeBlock` | src/vpux_compiler/src/core/barrier_info.cpp:2196-2240 | one block: same order of barriers plus queues, edges behind the block untouched, no two ordered tasks on one side of a barrier, barriers with equally listed producers merged as far as the limit allows |
| `OptimizeBarriers.TwinsMerged` | src/vpux_compiler/src/core/barrier_info.cpp:2379-2427 | two used barriers with the same single producer are only left by the merge when the slots are checked and their joint consumers exceed the limit |
| `OptimizeBarriers.MergedKept` | src/vpux_compiler/src/core/barrier_info.cpp:2196-2240 | work on later blocks does not undo the merges of a block |
| `ControlShapes.ControlRowsExact` | src/vpux_compiler/src/core/barrier_info.cpp:3253-3323 | the three sweeps together: for any graph the rows hold exactly the pairs joined by an in-range path of the recorded shape |
| `ControlShapes.FirstSweep` | src/vpux_compiler/src/core/barrier_info.cpp:3271-3292 | the first sweep, downwards: exactly the pairs joined by steps up, then possibly a step down and one last step |
| `ControlShapes.SecondSweep` | src/vpux_compiler/src/core/barrier_info.cpp:3294-3310 | the upward sweep over tasks with backward edges puts steps down in front |
| `ControlShapes.ThirdSweep` | src/vpux_compiler/src/core/barrier_info.cpp:3311-3323 | the last downward sweep puts steps up in front |
| `ControlShapes.ZigzagsReach` | src/vpux_compiler/src/core/barrier_info.cpp:3253-3323 | recorded pairs are ordered by a real path inside the range |
| `ControlShapes.ForwardZigzags` | src/vpux_compiler/src/core/barrier_info.cpp:3271-3292 | on forward graphs every ordered pair of the range is recorded |
| `ControlShapes.OneStepBack` | src/vpux_compiler/src/core/barrier_info.cpp:3271-3323 | every pair joined by a path with at most one step back is recorded |
| `ControlShapes.BackwardMapIncomplete` | src/vpux_compiler/src/core/barrier_info.cpp:3294-3323 | a consequence of the exact shape: a graph with two backward edges in which an ordered pair is missed |
| `RemoveRedundant.RemoveInBlock` | src/vpux_compiler/src/core/barrier_info.cpp:3677-3752 | one block: every dropped user is ordered with a remaining or dropped one, and no two remaining users of a barrier are ordered; throws exactly if a task other than the closing sync point leads outside, or a barrier used in the block has two users, sync points apart, that are not both inside |
| `SplitPrograms.SplitAccepted` | src/vpux_compiler/src/core/barrier_info.cpp:948-1411 | every graph the split produces is acceptable in every block for the removal of redundant users and has no edge past a sync point |
| `SplitPrograms.Rebuild` | src/vpux_compiler/src/core/barrier_info.cpp:620-681 | reading the program again gives the same four maps, now with the sync points |
| `RemoveRedundant.ThinningKeepsOrder` | src/vpux_compiler/src/core/barrier_info.cpp:3677-3752 | removing producers that precede another producer, and consumers that follow another consumer, at once loses no order |
| `VariantBatches.CreateLegalBatches` | src/vpux_compiler/src/core/barrier_info.cpp:3534-3575 | consecutive ascending runs that cover the tasks, each within the limit or a single task; the first one is empty exactly if the first task alone exceeds the limit, all later ones hold tasks; no batch has room for the first task of the next, unless that has another executor and these are kept apart; without regard to executors one batch is enough exactly if the tasks fit together; one executor per batch when asked |
| `VariantBatches.GreedyIsOptimal` | src/vpux_compiler/src/core/barrier_info.cpp:3534-3575 | no division into consecutive runs within the limit has fewer parts |
| `VariantSplit.SplitBarrier` | src/vpux_compiler/src/core/barrier_info.cpp:1926-2011 | one barrier is replaced by one barrier per batch and the task graph is unchanged |
| `VariantSplit.SplitAllProducers` | src/vpux_compiler/src/core/barrier_info.cpp:2013-2028 | exactly the barriers beyond the limits with too many producer slots give way, each to one barrier per greedy batch of its producers; the others keep their users and the task graph is unchanged |
| `VariantSplit.SplitAllConsumers` | src/vpux_compiler/src/core/barrier_info.cpp:2030-2045 | the same for consumer slots |
| `VariantSplit.LegalUntouched` | src/vpux_compiler/src/core/barrier_info.cpp:1907-1924 | the two divisions one after the other leave exactly the legal barriers as they were |
| `VariantSplit.DividedLegal` | src/vpux_compiler/src/core/barrier_info.cpp:1907-1924 | after dividing one side it is legal everywhere, and a barrier whose other side was legal is legal altogether |
| `SingleWait.Eliminate` | src/vpux_compiler/src/core/barrier_info.cpp:2456-2570 | one elimination keeps edges forward and strictly lowers the termination measure, so the progress checks cannot fail; it gives up only if a task with the same wait barriers takes more than the available slots, and has to if none of them fits twice as many; no order is lost if the first producer of each of the barriers fits; the whole new state: which consumers get the chain, as many as fit, and batches that end only where they have to; producers that leave room for the consumers stay one batch and the task graph is unchanged; otherwise new edges join producers only; nothing changes when it gives up |
| `SingleWait.MergedGraph` | src/vpux_compiler/src/core/barrier_info.cpp:2537-2570 | merging the producers into one barrier leaves the task graph as it is |
| `SingleWait.ChainOrdersProducers` | src/vpux_compiler/src/core/barrier_info.cpp:2632-2671 | a chain orders nothing but the producers it linearizes |
| `SingleWait.ProducerBatches` | src/vpux_compiler/src/core/barrier_info.cpp:2572-2630 | the producers of parallel barriers as ascending batches, each within the limit and none empty if all producers fit; no batch after the first is empty if the first producer of each barrier fits; a batch ends only where the next task does not fit, has another executor, or starts a barrier that does not fit as a whole |
| `SingleWait.ExtendBatches` | src/vpux_compiler/src/core/barrier_info.cpp:2586-2630 | taking in one more barrier breaks the chain exactly if its producers do not fit into the last batch and the first of them does not fit at all |
| `SingleWait.AddChain` | src/vpux_compiler/src/core/barrier_info.cpp:2632-2671 | one barrier between any two successive batches, the last one in front of the consumers |
| `SingleWait.ChainKeepsAll` | src/vpux_compiler/src/core/barrier_info.cpp:2632-2671 | through the chain every producer precedes the consumers exactly if no empty batch comes after one that holds a task |
| `SingleWait.SelectConsumers` | src/vpux_compiler/src/core/barrier_info.cpp:2482-2502 | picks tasks with exactly the given wait barriers, within the slot limit, and all of them or so many that one more would exceed it |
| `SingleWait.EliminatedOrder` | src/vpux_compiler/src/core/barrier_info.cpp:2456-2570 | replacing parallel wait barriers by a chain whose later batches hold tasks loses no order |
| `SingleWait.WeightDrops` | src/vpux_compiler/src/core/barrier_info.cpp:3093-3122 | the measure behind termination: fixing a task outweighs all parallel waits it creates at earlier tasks |
| `ControlGraphSplit.SplitBarrier` | src/vpux_compiler/src/core/barrier_info.cpp:1109-1337 | one barrier that crosses blocks: users of later blocks get sync barriers or a barrier of their own, the rest stays in the first block, everything else only grows |
| `ControlGraphSplit.MoveProducers` | src/vpux_compiler/src/core/barrier_info.cpp:1149-1252 | producers of a later block leave the barrier and lead to their sync point, or share a new barrier with the consumers of their block |
| `ControlGraphSplit.ReroutedKept` | src/vpux_compiler/src/core/barrier_info.cpp:1098-1337 | after rerouting, edges inside a block survive, producers without consumers in their block lead to its sync point, consumers of earlier blocks follow the sync point in front of theirs |
| `SplitLayout.SplitKeepsOrder` | src/vpux_compiler/src/core/barrier_info.cpp:948-1411 | these three kinds of edges, the chain of sync points and the ties of idle tasks keep the whole happens-before order |
| `SplitOrder.SplitOrderExact` | src/vpux_compiler/src/core/barrier_info.cpp:948-1411 | after a split tasks are ordered by index, two ordinary tasks of one block exactly as before; the last task only once it is tied to the sync point before it |
| `SplitOrder.InnerOrder` | src/vpux_compiler/src/core/barrier_info.cpp:1098-1337 | a path between ordinary tasks of one block uses original edges only |
| `BlockSplit.SyncTasks` | src/vpux_compiler/src/core/barrier_info.cpp:965-986 | the sync points are the last tasks of the full blocks that another task follows |
| `SplitLayout.TasksBeforeSync` | src/vpux_compiler/src/core/barrier_info.cpp:1022-1051 | every task of a block runs before its sync point |
| `SplitLayout.TasksAfterSync` | src/vpux_compiler/src/core/barrier_info.cpp:1053-1085 | every task of a block runs after the previous sync point, the last task without wait barrier excepted |
| `BlockSplit.LastTaskExact` | src/vpux_compiler/src/core/barrier_info.cpp:1053-1085 | the last task follows its sync point exactly when it waits for a barrier or shares its queue with a task since the sync point |
| `BlockSplit.LinkIdleTasks` | src/vpux_compiler/src/core/barrier_info.cpp:1014-1085 | the last task without update barrier per queue and block leads to the sync point, the first one without wait barrier follows the previous sync point |
| `BlockSplit.SplitBarriers` | src/vpux_compiler/src/core/barrier_info.cpp:1098-1337 | all barriers are rerouted; refused exactly when one lacks producers or consumers |
| `BlockSplit.ChainSyncPoints` | src/vpux_compiler/src/core/barrier_info.cpp:1339-1354 | successive sync points are linked |
| `BlockSplit.SweepBarriers` | src/vpux_compiler/src/core/barrier_info.cpp:1356-1388 | barriers without consumers hand their producers to the sync points; the check that no barrier has consumers only never fails |
| `BlockSplit.DropUnused` | src/vpux_compiler/src/core/barrier_info.cpp:1390-1401 | unused barriers in front of sync points are reset and the task graph stays; the barriers behind sync points are not looked at |
| `BlockSplit.AddSyncBarriers` | src/vpux_compiler/src/core/barrier_info.cpp:978-1009 | one barrier in front of and one behind every sync point |
| `BlockSplit.BlocksOk` | src/vpux_compiler/src/core/barrier_info.cpp:961-970 | block numbers and sync points of blocks of equal size fit together |
| `SplitCheck.CheckEdges` | src/vpux_compiler/src/core/barrier_info.cpp:1428-1454 | true exactly when every edge is inside a block or from a sync point to the next block |
| `SplitCheck.CheckPaths` | src/vpux_compiler/src/core/barrier_info.cpp:1506-1610 | the test of one task; exact on forward graphs |
| `SplitCheck.PassingGraph` | src/vpux_compiler/src/core/barrier_info.cpp:1506-1610 | if all tests pass, every task of a block with a sync point runs before it |
| `SplitCheck.NextOnQueue` | src/vpux_compiler/src/core/barrier_info.cpp:157-167 | the next task on the same queue |
| `SplitAgreement.CheckAcceptsSplit` | src/vpux_compiler/src/core/barrier_info.cpp:1413-1617 | the check accepts the graph that `splitControlGraphToBlocks` leaves exactly if the last task waited for a barrier or shares its queue with another task behind the last sync point |
| `SplitAgreement.LastFollowsSync` | src/vpux_compiler/src/core/barrier_info.cpp:1053-1085 | a last task that waits for nothing follows its sync point inside its block exactly if another task behind the sync point shares its queue |
| `SplitPrograms.SplitLeavesLastTask` | src/vpux_compiler/src/core/barrier_info.cpp:1053-1085 | three tasks on three queues with one barrier from task 0 to task 1 and blocks of two tasks: the split succeeds, leaves task 2 unordered with the sync point, and the check of the split rejects the result |
| `ExplicitDependencies.ReduceBarrier` | src/vpux_compiler/src/core/barrier_info.cpp:3795-3834 | one barrier: only edges inside a queue go, no further reduction is possible, and the exact condition of the consistency check |
| `ExplicitDependencies.SameQueue` | src/vpux_compiler/src/core/barrier_info.cpp:3581-3603 | the common queue of a set of tasks, if there is one and none is a sync point |
| `ExplicitDependencies.ImpliedOrder` | src/vpux_compiler/src/core/barrier_info.cpp:3774-3836 | edges inside a queue can go without changing barriers plus queue order |
| `SharedJoin.JoinBarrier` | src/vpux_compiler/src/core/barrier_info.cpp:2726-2773 | one barrier gains the tasks on one side if that side still fits, and gives way to the chain of the legal batches otherwise; the new producers and consumers of all barriers are stated exactly |
| `SharedJoin.ChainKeepsBarrier` | src/vpux_compiler/src/core/barrier_info.cpp:2742-2766 | the exact condition of one barrier: the chain keeps all order between its two sides exactly if it is not the wait side that grows, or there are no producers or consumers, or the first consumer fits |
| `SharedJoin.JoinedKeepsOrder` | src/vpux_compiler/src/core/barrier_info.cpp:2726-2773 | joining a barrier that is not cut in this way loses no order |
| `SharedJoin.GuardStays` | src/vpux_compiler/src/core/barrier_info.cpp:2692-2773 | the guard of the whole pass survives every join, although the chains create barriers with new first consumers |
| `SharedLosses.StrandedLosesOrder` | src/vpux_compiler/src/core/barrier_info.cpp:2692-2773 | for every program in which a too large task comes first on the only queue and in all its barriers, and its neighbour is idle: afterwards nothing precedes it, although its producers did |
| `SharedLosses.OrderIsLost` | src/vpux_compiler/src/core/barrier_info.cpp:2692-2773 | such a program of three tasks |
| `SharedLosses.ChainLosesOrder` | src/vpux_compiler/src/core/barrier_info.cpp:2726-2773 | why the guard looks beyond the first consumers of the barriers at the start: a barrier whose first consumer fits becomes a chain in which a too large task comes first, and the next join loses its order |
| `SharedRows.FilledOrder` | src/vpux_compiler/src/core/barrier_info.cpp:2692-2773 | complete sharing neither adds nor loses order: a task gains a barrier only from a neighbour that the queue orders on the right side of it |
| `SharedRows.FilledComplete` | src/vpux_compiler/src/core/barrier_info.cpp:2692-2724 | complete sharing leaves on a queue no task without update barrier before one with, and no task without wait barrier after one with |
| `SharedRows.NextRowUser` | src/vpux_compiler/src/core/barrier_info.cpp:2699-2708 | the shared update barriers are those of the first later task of the queue that has some |
| `SharedRows.PrevRowUser` | src/vpux_compiler/src/core/barrier_info.cpp:2711-2722 | the shared wait barriers are those of the last earlier task of the queue that has some |
| `BatchChains.ChainOrder` | src/vpux_compiler/src/core/barrier_info.cpp:2744-2764 | the exact order of a chain: a part precedes a later one exactly if no part in between is empty |
| `BatchChains.LinkEdges` | src/vpux_compiler/src/core/barrier_info.cpp:2744-2764 | the barriers created for a chain enforce exactly the edges between successive parts |
| `BatchChains.EmptyPartCuts` | src/vpux_compiler/src/core/barrier_info.cpp:2744-2764 | nothing before an empty part precedes anything behind it |
| `VariantBatches.OneBatch` | src/vpux_compiler/src/core/barrier_info.cpp:3534-3575 | a second batch is opened exactly if the tasks exceed the limit |
| `AsyncDeps.AsyncDepsInfo.AddDependency` | src/vpux_compiler/src/core/async_deps_info.cpp:219-225 | adds exactly one dependency; the consumer map, once built, stays the inverse |
| `AsyncDeps.AsyncDepsInfo.BuildConsMap` | src/vpux_compiler/src/core/async_deps_info.cpp:286-294 | the consumer map is the inverse of the dependency map |
| `AsyncDeps.AsyncDepsInfo.Visit` | src/vpux_compiler/src/core/async_deps_info.cpp:394-411 | a found cycle is real; otherwise the finished operations form a schedule |
| `AsyncDeps.FullClosure` | src/vpux_compiler/src/core/async_deps_info.cpp:79-99 | sound for every map; complete below the last row when dependencies have smaller indices |
| `AsyncDeps.PartialClosure` | src/vpux_compiler/src/core/async_deps_info.cpp:63-77 | below the last row exactly the first- and second-order dependencies |
| `AsyncDeps.PartialReduction` | src/vpux_compiler/src/core/async_deps_info.cpp:231-273 | the exact rows of the partial mode |
| `AsyncDeps.ReduceRow` | src/vpux_compiler/src/core/async_deps_info.cpp:254-272 | keeps exactly the dependencies that no dependency of the row covers |
| `AsyncDeps.AcyclicPruneKeeps` | src/vpux_compiler/src/core/async_deps_info.cpp:231-280 | dropping bypassed dependencies keeps the order of every acyclic graph, by induction on a rank |
| `AsyncDeps.ReductionMinimal` | src/vpux_compiler/src/core/async_deps_info.cpp:245-273 | with a complete closure the reduction is minimal |
| `AsyncDeps.FinishedAcyclic` | src/vpux_compiler/src/core/async_deps_info.cpp:386-422 | a schedule of all operations excludes cycles |
| `ProfilingBuffers.BufferScheduler.ScheduleTask` | src/vpux_compiler/src/core/act_profiling.cpp:62-86 | refuses exactly tasks that exceed a buffer; the buffer sizes stay those of the planned packing |
| `ProfilingBuffers.BufferScheduler.ReplayTask` | src/vpux_compiler/src/core/dpu_profiling.cpp:115-219 | one task of the replay keeps the packing in step with the plan |
| `ProfilingBuffers.PlanNext` | src/vpux_compiler/src/core/dpu_profiling.cpp:90-113 | a buffer that the next task does not fit is not empty and final |
| `ProfilingBuffers.PlanSum` | src/vpux_compiler/src/core/act_profiling.cpp:52-58 | planning loses no record |
| `ProfilingBuffers.PlanNonEmpty` | src/vpux_compiler/src/core/act_profiling.cpp:98-108 | an empty buffer is planned only if there is nothing to record |
| `ProfilingBuffers.TilesStep` | src/vpux_compiler/src/core/act_profiling.cpp:187-200 | placing the next task behind the last one keeps the tiling |
| `StaticAllocation.ProcessOp` | src/vpux_compiler/src/core/allocation_info.cpp:156-216 | one operation: the right releases, its buffers alive and allocated when it runs, no buffer allocated twice, and users erased exactly once; it fails only if the allocator refuses the buffers it still needs after the right releases |
| `StaticAllocation.WhyFreed` | src/vpux_compiler/src/core/allocation_info.cpp:185-196 | a buffer released before some operation runs had its last user end by the begin of the next operation, or that one was refused with this buffer and the later ones still in memory |
| `StaticAllocation.FreedInTime` | src/vpux_compiler/src/core/allocation_info.cpp:185-196 | a buffer whose users all ran and ended by the begin of an operation is released before that operation allocates |
| `StaticAllocation.RightReleases` | src/vpux_compiler/src/core/allocation_info.cpp:185-216 | the cycles that make room are the end cycles of the last users of the buffers that no one needs any more |
| `StaticAllocation.Scan.MakeRoom` | src/vpux_compiler/src/core/allocation_info.cpp:185-196 | the earliest end cycles go, each because it lies behind or because there was no room with all later buffers still in memory, and it stops at the first cycle ahead with room; the new release events come in the order of their cycles |
| `StaticAllocation.LiveRanges.EraseUser` | src/vpux_compiler/src/core/mem_live_range_info.cpp:203-218 | erases one user on both sides of the inverse maps, or fails if it is none |
| `StaticAllocation.Scan.AllocateAll` | src/vpux_compiler/src/core/linear_scan_handler.cpp:100-108 | no buffer gets a second address |
| `ExecutionGroups.CreateGroups` | src/vpux_compiler/src/core/execution_group_analysis.cpp:106-156 | consecutive groups that cover the queue in order; each is closed only because the next task breaks a limit; within both limits and not empty if every task fits |
| `ExecutionGroups.GreedyIsOptimal` | src/vpux_compiler/src/core/execution_group_analysis.cpp:56-104 | no division into consecutive groups within both limits has fewer groups |
| `PipelineRoundTrip.RoundTrip` | tools/vpux-opt/mlir_passes_cutter.py:250-325 | for every well-formed pipeline, repeated passes included: reading the text and printing the tree gives the same text exactly if the outermost list does not end in a pass without options and every indentation of options has the width that is printed (two spaces, or one if nothing follows) |
| `PipelineRoundTrip.ReadThenPrint` | tools/vpux-opt/mlir_passes_cutter.py:250-325 | reading always succeeds on a well-formed text, and what is printed is the text of all items whose end is visible, with two spaces for any indentation in front of options |
| `PipelineRoundTrip.ReadItems` | tools/vpux-opt/mlir_passes_cutter.py:285-322 | a list of items adds exactly one entry per finished item to the open node, keeps the last unfinished name, and changes nothing else of the tree |
| `PipelineRoundTrip.ReadSettings` | tools/vpux-opt/mlir_passes_cutter.py:132-153 | `name=value` pairs become the entries of the pass in order |
| `PipelineRoundTrip.ReadIndent` | tools/vpux-opt/mlir_passes_cutter.py:132-153 | spaces in front of the options leave one entry with an empty name, however many there are |
| `PipelineRoundTrip.PrintedInside` | tools/vpux-opt/mlir_passes_cutter.py:177-187 | that entry is printed as two spaces in front of options, and as one without any |
| `PipelineText.SameTextAllNormal` | tools/vpux-opt/mlir_passes_cutter.py:165-210 | the text of a pipeline shows the width of every indentation |
| `PipelineRoundTrip.ChosenIsNew` | tools/vpux-opt/mlir_passes_cutter.py:262-274 | the name of a new node, made unique if its path was seen before, differs from all its siblings |
| `PipelineRoundTrip.PrintedItems` | tools/vpux-opt/mlir_passes_cutter.py:165-210 | the printer renders the entries made for a list of items as that list, with the printed width of indentations |
| `PipelineRoundTrip.EnsurePlug` | tools/vpux-opt/mlir_passes_cutter.py:31-40 | following a path of open nodes and creating the last one appends one empty entry |
| `PipelineCutter.Parse` | tools/vpux-opt/mlir_passes_cutter.py:310-322 | the driver loop computes the run of the transition table over the whole text |
| `PipelineCutter.Reader.Feed` | tools/vpux-opt/mlir_passes_cutter.py:285-308 | one character: the state in place follows the transition table, or fails where the table does |
| `PipelineCutter.Reader.CreatePipelineNode` | tools/vpux-opt/mlir_passes_cutter.py:262-274 | creates the node at the current path under a name that is tagged if the path was seen before |
| `PipelineText.NewTag` | tools/vpux-opt/mlir_passes_cutter.py:51-55 | a new number makes a name different from all tagged names before it |
| `PipelineText.TaggedCanonize` | tools/vpux-opt/mlir_passes_cutter.py:46-48 | the tag is cut off again |
| `PipelineText.TaggedIsObject` | tools/vpux-opt/mlir_passes_cutter.py:58-59 | a tag does not change whether a name stands for a nested pipeline |

## Left out

- SharedBarriers.Share: the guard under which no ordering is lost is sufficient; the exact condition is stated for one barrier (`SharedJoin.ChainKeepsBarrier`) and for the order of a chain (`BatchChains.ChainOrder`), because whether the whole run loses a pair also depends on what else happens to order it. After a split the contents of the barriers are stated as the result of the scans, join by join, since they depend on the order in which sets are iterated.
- SingleWait.EnsureSingleWait: with producers that do not fit the result depends on the iteration order of the set of wait barriers, so what is lost then is stated per barrier (`SingleWait.ExtendBatches`, `SingleWait.ChainKeepsAll`).
- RemoveRedundant.Remove: the exact condition for success is stated per block (`RemoveRedundant.RemoveInBlock`), since thinning an earlier block can make a later one acceptable.
- SplitPrograms.Rebuild: tasks and barriers keep their numbers; the reordering of the operations between two passes is not part of this model.
- BlockSplit.SplitToBlocks: covers forward graphs; on others the lookup of a sync point may miss and fall back to barrier 0, which is not modelled.
- SplitCheck.VerifySplit: the control maps are rebuilt for every question; the original keeps the last two, which changes no answer. That the queue map is not restored after a negative verdict is not modelled.
- AsyncDeps.AsyncDepsInfo.OptimizeDepsMap: no claim on cyclic maps; minimality only for the full closure (at most 10000 operations) on maps whose dependencies have smaller indices.
- ProfilingBuffers.BufferScheduler.AddProfilingOps: unbounded integers instead of 32-bit counters; creation of operations and metadata is dropped.
- StaticAllocation.RunLinearScan: the placement inside the memory is the answer of an abstract allocator.
- ExecutionGroups.CreateGroups: one hardware operation per task on compute queues; the mode without program (unit tests) and 32-bit counters are not modelled.
- Operations, builders, attributes, locations, logging and file dumps of the compiler framework: barriers and tasks are indices.
- Offsets into bit vectors: sets of indices are used directly.
- `canBarriersBeMerged`, `canBarProducersControlBarConsumers`, `findParallelTasksWithBarrierDependence`: heuristics without an ordering promise.
- `createBarrierDependenciesForDescriptorFetchInNonWlm`, `adjustTasksDependenciesToGraphSplitConstraints` and the descriptor checks: they depend on hardware fetch rules that are not part of this model.
- `insertNewExecOpToDepsMap`, `preAllocateForNewOps`: they leave the consumer map behind the dependency map.
- `AliasesInfo`, and how buffers and their users are collected from the program.
- PipelineRoundTrip.RoundTrip: letters and digits are those of ASCII; names of nested pipelines contain one of the two marker words and those of passes do not, nested pipelines are not empty, option names are distinct and not empty.
- `process_pipeline`: cutting the pipeline at a pass chosen by a regular expression, and the command line.
