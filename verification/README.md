# Ginkgo: CUDA executor, test executor selection, multigrid and two index kernels

A Dafny model of five pieces of the Ginkgo sparse linear algebra library,
with the properties each piece promises proved about the model.

- `cuda_executor.dfy` (module `CudaExecutor`) covers the CUDA executor:
  - the choice of allocator for an allocation mode;
  - creation of an executor;
  - allocation and release under a scoped device guard;
  - the copy between a CUDA executor and the OpenMP, HIP, DPC++ or another CUDA executor;
  - stream synchronisation;
  - the device count query;
  - the device-id range check that guards the setting of the GPU properties, the PCI/NUMA information and the cuBLAS/cuSPARSE handles.

  The CUDA runtime is abstract state held by a `Runtime` object:
  - the current device and the devices that active guards will restore;
  - memory, a map from address to bytes;
  - the copies pending on each stream, applied when the stream is synchronised;
  - a log of the runtime calls issued.
- `executor_init.dfy` (module `ExecutorInit`) covers how the test fixtures pick their executor: single-process, and one rank of an MPI job.
- `multigrid.dfy` (module `Multigrid`) covers `handle_list` and `Multigrid::generate`, which build the level hierarchy. Operators, factories and smoothers are opaque values. The callables that choose a factory per level, and the coarsening itself, are parameters.
- `multigrid_cycle.dfy` (module `MultigridCycle`) covers three things:
  - the work vectors that `MultigridState` allocates per level;
  - the control flow of `run_cycle` (V, F, W and the two k-cycles), recorded as the sequence of steps it performs;
  - the iteration loop of `apply_impl`.
- `fixed_coarsening.dfy` (module `FixedCoarsening`) covers the two index kernels of fixed coarsening:
  - the scatter of `fill_restrict_op`;
  - the numbering scan of `fill_coarse_indices`.
- `assembly.dfy` (module `Assembly`) covers `count_non_owning_entries` of distributed assembly. It has four steps: classify, count per part, stable sort by owning part, and mask plus exclusive prefix sum.
- `wrappers.dfy` and `arithmetic.dfy` hold `Option`/`Result`/`Outcome` and three facts about Euclidean division.

Exceptions are `Err`/`Fail` values. A parallel kernel is a sequential loop over its thread indices.

## Model

| member | source | states |
|---|---|---|
| CudaExecutor.AllocatorFromMode | cuda/base/executor.cpp:63-76 | `device` gives the plain device allocator; `unified_global` and `unified_host` both give the unified allocator bound to the device id; every other mode raises NotSupported, and only those raise |
| CudaExecutor.Create | cuda/base/executor.cpp:79-86 | creation fails exactly when the allocator selection fails, with NotSupported; otherwise it yields a fresh executor with the given device id and stream, the selected allocator, default properties and no cuBLAS or cuSPARSE handle yet |
| CudaExecutor.CreatedAllocatorTargetsDevice | cuda/base/executor.cpp:63-76 | whichever allocator the mode selects, allocations land on the executor's own device |
| CudaExecutor.GetNumDevices | cuda/base/executor.cpp:208-217 | "no device" reads as a count of 0; success gives the reported count; every other error code raises that code, and only those raise |
| CudaExecutor.DeviceInRange | cuda/base/executor.cpp:100-101 | the id guard fails exactly when the device count query raises; otherwise it holds exactly for ids in `[0, count)` |
| CudaExecutor.NoDeviceIsNotAnError | cuda/base/executor.cpp:212-214 | on a machine with no device, every id is out of range and no error is raised |
| CudaExecutor.Runtime.EnterGuard | cuda/base/executor.cpp:122 | a scoped device guard makes its device current and remembers the previous one |
| CudaExecutor.Runtime.ExitGuard | cuda/base/executor.cpp:127 | leaving a guard restores the device that was current when it was entered |
| CudaExecutor.Runtime.SyncStream | cuda/base/executor.cpp:198 | synchronising a stream applies its pending copies in order to memory and empties its queue |
| CudaExecutor.NestedGuards | cuda/base/executor.cpp:122-126 | a guard nested inside another (the copy's guard around `synchronize`'s guard) leaves the current device and the guard stack as they were |
| CudaExecutor.DrainKeepsShape | cuda/base/executor.cpp:198 | applying pending copies neither adds nor removes buffers nor changes their sizes |
| CudaExecutor.CopyLands | cuda/base/executor.cpp:123-126 | after a queued copy is drained, its destination's first bytes equal its source's, and every other buffer is as if the copy had not been queued |
| CudaExecutor.CudaExecutor.Synchronize | cuda/base/executor.cpp:195-199 | synchronising the executor drains its own stream under a guard for its device; the current device is restored afterwards |
| CudaExecutor.CudaExecutor.RawAlloc | cuda/base/executor.cpp:138-142 | allocation runs under a guard for the executor's device and returns a fresh buffer of the requested size in the allocator's space, or raises an allocation error with memory unchanged |
| CudaExecutor.CudaExecutor.RawFree | cuda/base/executor.cpp:131-135 | release runs under a guard for the executor's device, removes exactly that buffer, and never fails |
| CudaExecutor.CudaExecutor.PopulateExecInfo | cuda/base/executor.cpp:98-115 | for an id outside `[0, count)` nothing changes; otherwise, under a guard for that id, the PCI bus id is set, and the NUMA node and closest PUs are set exactly when the topology knows the bus id |
| CudaExecutor.WithTopology | cuda/base/executor.cpp:104-113 | the bus id is recorded; the NUMA node and the PU ids come from the topology entry when there is one and are kept otherwise; the device id, compute capability and every workgroup limit are kept |
| CudaExecutor.CudaExecutor.SetGpuProperty | cuda/base/executor.cpp:220-257 | for an id outside `[0, count)` nothing changes; otherwise, under a guard for that id, the device attributes are recorded |
| CudaExecutor.WithGpuProperties | cuda/base/executor.cpp:225-255 | compute capability, multiprocessor count, block limits, cores per SM divided by the warp size (rounded down) and the warp size as subgroup size are recorded; the device id and the topology fields are kept |
| CudaExecutor.CudaExecutor.InitHandles | cuda/base/executor.cpp:260-279 | for an id outside `[0, count)` nothing changes; otherwise, under a guard for that id, a cuBLAS and then a cuSPARSE handle are created on the executor's stream, and any replaced handle is destroyed under a guard for its captured id |
| CudaExecutor.DestroyHandle | cuda/base/executor.cpp:268-276 | a handle's deleter re-enters a guard for the device id it captured and restores the current device |
| CudaExecutor.RawCopyTo | cuda/base/executor.cpp:118-192 | the result is NotSupported for CUDA to DPC++ (even for zero bytes) and for CUDA to HIP outside an NVCC build, and Pass otherwise; a failed or zero-byte copy issues no runtime call and changes no memory; any other copy enters the owner's guard, queues the copy on the owner's stream, synchronises the owner, and leaves memory as the owner's stream drained with the copy appended |
| CudaExecutor.CopyCompletesOnReturn | cuda/base/executor.cpp:123-126 | on return from a supported copy, the destination's first `n` bytes equal the source's |
| CudaExecutor.CopyLeg | cuda/base/executor.cpp:118-192 | a supported copy between two distinct buffers, issued while the owning stream has nothing pending, leaves the source's first `n` bytes in the destination, every other buffer unchanged, no buffer added, removed or resized, and no stream with a new pending copy |
| CudaExecutor.HostDeviceHostRoundTrip | cuda/base/executor.cpp:118-155 | any `n` bytes copied from a host buffer to a freshly allocated device buffer and back into a second host buffer read back unchanged, whatever allocator `create` selected |
| CudaExecutor.DeviceDeviceRoundTrip | cuda/base/executor.cpp:182-192 | any `n` bytes copied by peer copy from one CUDA executor's buffer to a fresh buffer of another CUDA executor and back into a second buffer of the first read back unchanged |
| ExecutorInit.InitExecutor | test/utils/executor.hpp:67-119 | reference and OpenMP always succeed; CUDA and HIP fail exactly when their count query raises (with that error) or reports no device, and otherwise take device 0 with the reference executor as master; DPC++ takes a gpu if it has one, else a cpu, else fails |
| ExecutorInit.InitExecutorMpi | test/utils/executor.hpp:151-204 | host executors always succeed; an accelerator fails exactly when its count query raises (with that error) or its selected count (gpu before cpu for DPC++) is 0; otherwise the device is the node-local rank modulo that count, hence below it; only CUDA asks for device allocation explicitly |
| ExecutorInit.HostInitIgnoresCounts | test/utils/executor.hpp:67-81 | reference and OpenMP selection does not depend on the device counts or the rank, single-process or MPI |
| ExecutorInit.MpiRankZeroAgrees | test/utils/executor.hpp:84-204 | rank 0 of an MPI job fails exactly when the single-process fixture fails, with the same error when a count query raises, and otherwise also gets device 0 |
| ExecutorInit.MpiRoundRobin | test/utils/executor.hpp:167-204 | ranks fewer than the device count apart get different devices; ranks that differ by a multiple of it share one |
| Multigrid.SelectSmootherCases | core/solver/multigrid.cpp:78-90 | an empty list gives no smoother; a one-entry list uses entry 0 at every level; otherwise entry `index`, raising exactly when `index` is out of bounds; a null entry gives no smoother, any other entry the smoother it generates on the level's operator |
| Multigrid.SelectRelaxationCases | core/solver/multigrid.cpp:91-102 | an empty array gives the shared one; a one-element array uses element 0; otherwise element `index`, raising exactly when `index` is out of bounds |
| Multigrid.HandleList | core/solver/multigrid.cpp:68-103 | succeeds exactly when both selections succeed, appending one smoother and one relaxation; if the relaxation bounds check fails, the smoother has already been appended and the relaxations are unchanged |
| Multigrid.AppendFollows | core/solver/multigrid.cpp:382-398 | appending a level's selections keeps every list holding, for each level, what `handle_list` selects there |
| Multigrid.MultigridSolver.Generate | core/solver/multigrid.cpp:362-433 | on a fresh solver, `generate` succeeds exactly when the hierarchy definition does, leaving that hierarchy and coarsest solver, and fails with its error otherwise |
| Multigrid.GenerateLoopKeeps | core/solver/multigrid.cpp:371-402 | every run of the loop keeps its invariant: each recorded level was made from the previous operator by the chosen factory and reduced the rows, and the lists follow the levels |
| Multigrid.LevelsMadeExtend | core/solver/multigrid.cpp:382 | appending a made level keeps every earlier level made |
| Multigrid.GeneratedHierarchy | core/solver/multigrid.cpp:362-433 | a generated solver has between 1 and `max_levels` levels, each made by the chosen factory and each reducing the rows; the loop stopped only at a limit or at a coarsening that did not reduce; each list has one entry per level as `handle_list` selects; post lists are the pre lists when `post_uses_pre`; mid lists are the pre or post lists for `mid_case` pre or post; the coarsest solver is the one chosen for the last operator |
| Multigrid.NoLevelIsAnError | core/solver/multigrid.cpp:371-415 | with `max_levels == 0`, with too few rows, or when the first coarsening does not reduce, `generate` fails for want of a level |
| MultigridCycle.KLevels | core/solver/multigrid.cpp:146-170 | the levels that get k-cycle work lie below the level count and are divisible by `k_base` |
| MultigridCycle.KLevelsAt | core/solver/multigrid.cpp:133-170 | there are `ceil(levels / k_base)` k-cycle entries and entry `j` belongs to level `j * k_base` |
| MultigridCycle.KWorkLookup | core/solver/multigrid.cpp:248-264 | at a k-cycle level `l`, the lookup at `l / k_base` exists and belongs to level `l` |
| MultigridCycle.MultigridState.constructor | core/solver/multigrid.cpp:110-173 | for each level, r has the level's rows and g and e have the next level's rows, all with `nrhs` columns; the ten k-cycle vectors exist exactly for levels divisible by `k_base` (scalars 1 × nrhs, vectors next rows × nrhs); there are none for other cycles |
| MultigridCycle.MultigridState.RunCycle | core/solver/multigrid.cpp:175-328 | one cycle records exactly the steps of the cycle definition: residual (below level 0), optional pre-smoothing, restriction, coarsest solve or recursion, the second part, prolongation, optional post-smoothing |
| MultigridCycle.MultigridState.Descend | core/solver/multigrid.cpp:196-208 | the descent records the residual below level 0, the pre-smoothing with its residual when there is a pre-smoother, and the restriction |
| MultigridCycle.MultigridState.Ascend | core/solver/multigrid.cpp:319-327 | the ascent records the prolongation, then the residual and post-smoothing when there is a post-smoother |
| MultigridCycle.MultigridState.CoarseOrRecurseRun | core/solver/multigrid.cpp:209-215 | the last level records a coarsest solve; any other level records a cycle on the next level |
| MultigridCycle.MultigridState.SecondHalf | core/solver/multigrid.cpp:216-318 | F and W cycles revisit the coarse level; the k-cycles iterate on levels divisible by `k_base`; nothing happens otherwise |
| MultigridCycle.MultigridState.RevisitRun | core/solver/multigrid.cpp:219-247 | the revisit records prolongation, residual, optional mid-smoothing, restriction, then a coarsest solve or a next-level cycle that is a V cycle for F and a W cycle for W |
| MultigridCycle.MultigridState.KIterationsRun | core/solver/multigrid.cpp:248-318 | the k-cycle records its first iteration, with norms only for a non-negative tolerance, then the second iteration when the tolerance rule says it runs |
| MultigridCycle.KCycleIterations | core/solver/multigrid.cpp:273-317 | a NaN tolerance computes no norm and runs one iteration; a negative one runs the second iteration always; a non-negative one runs it exactly when the stop check fails |
| MultigridCycle.CycleStepsParts | core/solver/multigrid.cpp:175-328 | a cycle is its descent, its coarse visit, its second part and its ascent, in that order |
| MultigridCycle.VCycleSolvesOnce | core/solver/multigrid.cpp:208-327 | a V cycle reaches the coarsest solver exactly once |
| MultigridCycle.FCycleSolves | core/solver/multigrid.cpp:217-247 | an F cycle from level `l` reaches the coarsest solver `total - l + 1` times, because its second visit is a V cycle |
| MultigridCycle.WCycleSolves | core/solver/multigrid.cpp:217-247 | a W cycle from level `l` reaches the coarsest solver `2^(total - l)` times |
| MultigridCycle.MultigridState.Iterate | core/solver/multigrid.cpp:468-476 | one pass of the loop records the zeroing of the corrections, a cycle from level 0 and the new residual |
| MultigridCycle.ApplyStepsStep | core/solver/multigrid.cpp:456-477 | while the criterion does not stop, the loop's steps are one iteration followed by the rest of the loop |
| MultigridCycle.MultigridState.Solve | core/solver/multigrid.cpp:456-477 | the loop records one iteration per check that does not stop it; it ends at the first check that stops it, reporting that iteration, or reports none exactly when no check up to the horizon stops |
| MultigridCycle.ApplyImpl | core/solver/multigrid.cpp:436-478 | the solve records the initial residual and then one iteration per check; it reports the first check at or before the horizon at which the criterion stops, or none exactly when no check up to the horizon stops (the source then keeps iterating) |
| MultigridCycle.ApplyStepsHorizonFree | core/solver/multigrid.cpp:456-477 | once the criterion has stopped at or before a horizon, a later horizon records the same steps: the horizon only bounds how far the loop is followed |
| FixedCoarsening.FillRestrictOp | common/unified/multigrid/fixed_coarsening_kernels.cpp:55-70 | the column array ends as the threads' scatter, in bounds because every non-negative coarse row names a column position; with distinct coarse rows each writing thread's index lands at its coarse row and every untargeted position keeps its value; a repeated coarse row is a race, for which index order is the order chosen |
| FixedCoarsening.ScatterInPointwise | common/unified/multigrid/fixed_coarsening_kernels.cpp:62-69 | with distinct targets, each thread with a non-negative coarse row writes its index there, and every position no thread targets keeps its old value |
| FixedCoarsening.ScatterOrderFree | common/unified/multigrid/fixed_coarsening_kernels.cpp:60-69 | with distinct targets, any two schedules of the same threads give the same column array |
| FixedCoarsening.ScanAsWritten | common/unified/multigrid/fixed_coarsening_kernels.cpp:86-93 | the scan as written, partial: it is undefined once it reads past the coarse rows; where defined, the map keeps its length and the counter never passes the coarse row count |
| FixedCoarsening.FillCoarseIndicesAsWritten | common/unified/multigrid/fixed_coarsening_kernels.cpp:76-98 | where the unguarded scan stays in bounds, the map ends as that scan leaves it |
| FixedCoarsening.AsWrittenAgrees | common/unified/multigrid/fixed_coarsening_kernels.cpp:86-93 | where the scan as written stays in bounds, it computes what the guarded scan computes |
| FixedCoarsening.PrefixInBounds | common/unified/multigrid/fixed_coarsening_kernels.cpp:88-93 | a scan that stays in bounds over some fine rows also stays in bounds over fewer |
| FixedCoarsening.FillCoarseIndices | common/unified/multigrid/fixed_coarsening_kernels.cpp:76-98 | with the read guarded, the map ends as the scan over all fine rows leaves it |
| FixedCoarsening.ScanBoundary | common/unified/multigrid/fixed_coarsening_kernels.cpp:88-92 | after `i` fine rows, the next coarse row to match is not below `i` |
| FixedCoarsening.ScanInvariant | common/unified/multigrid/fixed_coarsening_kernels.cpp:88-92 | after `i` fine rows, the scan has matched exactly the coarse rows below `i`, numbering each by its position, and left every other entry alone |
| FixedCoarsening.CoarseIndicesNumberRows | common/unified/multigrid/fixed_coarsening_kernels.cpp:88-92 | for strictly increasing coarse rows within the fine range, all coarse rows are matched, `map[coarse_rows[k]] == k`, and entries at other positions are unchanged |
| FixedCoarsening.AllCoarseRowsMatched | common/unified/multigrid/fixed_coarsening_kernels.cpp:88-92 | for such coarse rows, the counter ends at the number of coarse rows |
| FixedCoarsening.AsWrittenInBoundsIff | common/unified/multigrid/fixed_coarsening_kernels.cpp:89 | for such coarse rows, the kernel as written stays in bounds exactly when there are no fine rows or the last coarse row is the last fine row |
| FixedCoarsening.AsWrittenOverreads | common/unified/multigrid/fixed_coarsening_kernels.cpp:89 | with coarse rows `[0]` and two fine rows, the scan as written reads past the coarse rows at fine row 1 |
| Assembly.CountInIsMultiplicity | omp/distributed/assembly_kernels.cpp:47-49 | the per-part count of entries is the multiplicity of the part among the entries' parts |
| Assembly.SendCountsGain | omp/distributed/assembly_kernels.cpp:47-49 | after counting, every part but the local one has gained its multiplicity among the entries' parts, and the local part's count is unchanged |
| Assembly.CountsAfterStep | omp/distributed/assembly_kernels.cpp:47-49 | counting one more entry adds one to its part's count, and leaves the local part's count alone |
| Assembly.ClassifyEntries | omp/distributed/assembly_kernels.cpp:35-54 | the loop leaves each entry's part, the send counts grown by each other part's number of entries, and the marked positions |
| Assembly.InsertPermutes | omp/distributed/assembly_kernels.cpp:63-64 | inserting adds the new element and loses nothing |
| Assembly.SortByKey | omp/distributed/assembly_kernels.cpp:56-64 | the sort permutes the positions: same length, same multiset |
| Assembly.InsertSorted | omp/distributed/assembly_kernels.cpp:56-64 | inserting into a sorted sequence keeps it sorted by key |
| Assembly.SortByKeySorted | omp/distributed/assembly_kernels.cpp:56-64 | after the sort, the keys (the entry's part, or the local part for -1) never decrease |
| Assembly.InsertStable | omp/distributed/assembly_kernels.cpp:63-64 | inserting behind every element with a key that is not greater keeps each key's elements in order, with the new one last |
| Assembly.SortByKeyStable | omp/distributed/assembly_kernels.cpp:63-64 | the sort is stable: the elements of each key keep their original relative order |
| Assembly.StableSortPositions | omp/distributed/assembly_kernels.cpp:56-64 | the positions are replaced in place by their stable sort by owning part |
| Assembly.FillMask | omp/distributed/assembly_kernels.cpp:66-70 | the loop fills the send positions with the mask of the sorted positions |
| Assembly.PrefixSum | omp/distributed/assembly_kernels.cpp:72-73 | the send positions are replaced in place by their exclusive prefix sum |
| Assembly.CountNonOwningEntries | omp/distributed/assembly_kernels.cpp:25-74 | the send counts grow by each other part's number of entries; the positions end stably sorted by owning part; the send positions are the exclusive prefix sum of their mask |
| Assembly.MaskCountsSends | omp/distributed/assembly_kernels.cpp:66-70 | the mask counts exactly the positions that are not -1 |
| Assembly.MarksCountLocal | omp/distributed/assembly_kernels.cpp:50-53 | the -1 marks number exactly the local part's entries |
| Assembly.ScanSlots | omp/distributed/assembly_kernels.cpp:72-73 | in an exclusive scan of non-negative numbers, a positive element's slot is below every later slot and below the total |
| Assembly.SendSlots | omp/distributed/assembly_kernels.cpp:56-73 | after the sort, the entries to send number the entries minus the local part's multiplicity, and their send slots are distinct and below that number |
| Assembly.CountsCoverEntries | omp/distributed/assembly_kernels.cpp:42-49 | every entry belongs to exactly one part, so the per-part counts add up to the number of entries |
| Assembly.SendCountsMatchSlots | omp/distributed/assembly_kernels.cpp:42-73 | what the send counts gain in total equals the number of send slots: the entries of every part but the local one |

## Left out

- CUDA runtime calls are effects on the abstract `Runtime` state. Driver error codes of the memcpy, synchronise, attribute and handle calls are not modelled: those calls always succeed. Only the device count query reports an error code.
- The scoped device guard and the shared executor code in `common/cuda_hip/base/executor.hpp.inc` are not part of this model. The guard is specified abstractly as "make current, restore on exit".
- `get_scoped_device_id_guard`, `device_reset` and the `master` executor argument carry no behaviour that is modelled. The executor constructor's body (in the header) is not part of this model; it is taken to record the device id, allocator and stream.
- The `convert_sm_ver_to_cores` table, hwloc's PCI lookup and the cuBLAS/cuSPARSE libraries are parameters: a cores-per-SM function, a topology map, and handles known by library, stream and device.
- CudaExecutor.RawAlloc: the allocator's own failure is an `outOfMemory` flag passed in, not a modelled memory limit.
- OpenMP parallel loops and the atomic increment run as sequential loops. `ScatterOrderFree` shows that the order does not matter for `fill_restrict_op` when the targets are distinct. For the assembly loop, each increment is counted once.
- FixedCoarsening.FillRestrictOp: two threads with the same non-negative coarse row race on one column; the model lets the higher thread index write last, an order the kernel does not promise. `fill_coarse_indices` numbers distinct coarse rows, so distinct targets are the expected input.
- CudaExecutor.HostDeviceHostRoundTrip: the executor's stream must have no copies pending on entry, since an earlier queued copy drained by the first `synchronize` could overwrite the buffers of the round trip. The allocator must place memory on the executor's device, which `CreatedAllocatorTargetsDevice` proves for every allocator `create` selects. `DeviceDeviceRoundTrip` asks the same of both executors' streams and of the second executor's allocator.
- ExecutorInit.InitExecutor: the HIP device count is taken as given, an error or a count, since `HipExecutor::get_num_devices` is not part of this model. The DPC++ gpu and cpu counts are taken not to raise.
- ExecutorInit.InitExecutorMpi: the fixture queries the device count twice (once for the emptiness check, once for the modulus); the model takes both queries to give the same answer.
- MultigridCycle.ApplyImpl: the loop is followed only up to a chosen horizon. A criterion that never stops makes the source loop forever; the model reports that no check up to the horizon stopped, and `ApplyStepsHorizonFree` shows that a larger horizon changes nothing once the criterion has stopped.
- MultigridCycle.ApplyImpl: for the two k-cycles, `k_base` must be positive, a requirement also of `CanRun` and the `MultigridState` constructor. With `k_base == 0` the source divides by zero at core/solver/multigrid.cpp:133, 154, 250 and 254; the model does not describe that outcome.
- The MPI communicator is only its node-local rank, a natural number. A failing gtest assertion in an MPI fixture is an `Err` result.
- `find_range` is a function from row to range index. Its hint argument (the previous range) is not modelled, because it only speeds up the search.
- `prefix_sum_nonnegative` is an exclusive scan on unbounded integers, with no overflow check.
- `std::stable_sort` is specified by a stable insertion sort on sequences. The sort's algorithm is not modelled, only its result.
- Numerics of the multigrid solver are not modelled. These are the bodies of `apply`, `compute_dot`, `compute_norm2`, the k-cycle steps, restriction and prolongation, and the smoothers. `run_cycle` records them as steps without values.
- The stopping criterion of `apply_impl` and the k-cycle's `kcycle_check_stop` are oracles: a predicate on the iteration count, and a predicate on the steps recorded so far. The `stop_status` array, `one_changed` and the logger are not modelled.
- The k-cycle tolerance is a real number or NaN. Infinities are not distinguished from other reals, since `run_cycle` only compares the tolerance with 0.
- A relaxation array is known by its length only, since `handle_list` only indexes it. The ten k-cycle lists are one list of records with ten sizes each.
- The `reserve` calls only preallocate capacity and are not modelled.
- The state of a solver after `generate` raises part-way is not modelled. `Generate` only promises the state on success.
- The second `apply_impl` overload (`alpha * A^-1 b + beta * x`) is numerical and is not modelled.
- The allocator-taking `create` overload (cuda/base/executor.cpp:89-95) only stores its arguments. It is the executor constructor.

## Findings

| source | as written | input that shows it | evidently intended | confidence | as-written member | corrected member |
|---|---|---|---|---|---|---|
| common/unified/multigrid/fixed_coarsening_kernels.cpp:86-93 | `coarse_data[idx]` is read for every fine row, even after all coarse rows have been matched (`idx == len(coarse_rows)`) | `coarse_rows = [0]` with a two-entry `coarse_row_map`: at fine row 1, `idx == 1` reads past the one-element array | stop comparing once every coarse row is matched (guard the read with `idx < len(coarse_rows)`), so each coarse row `k` gets `map[coarse_rows[k]] = k` and nothing else is read | not executed | FixedCoarsening.AsWrittenOverreads | FixedCoarsening.CoarseIndicesNumberRows |
