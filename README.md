# Rod cutting and print-job grouping, modelled in Dafny

This project models two small algorithmic programs.

- **Rod cutting** (`Task_2.py`, module `RodCutting` in `rod_cutting.dfy`).
  `rod_cutting_memo` and `rod_cutting_table` solve unbounded rod cutting:
  `prices[k - 1]` is the price of a piece of length `k`. Each records, for
  every length, the first piece of a best split. It then rebuilds the list
  of pieces by following those first pieces from the full length down to 0,
  and returns the best profit, the pieces, and `len(cuts) - 1`.
  - The recurrence is stated once, as pure functions: `Opt`, `Candidate`,
    `MaxCandidate`, `FirstBest`, `BestCut`, `Reconstruct` and `Solution`.
  - The top-down solver is a class `MemoTable` holding the two dictionaries
    as `map` fields, with a recursive `Helper` method.
  - The bottom-up solver fills two arrays in place.
  - Both are proved to return `Solution(prices, length)`, so they agree
    whenever both accept the input.
- **Print-job grouping** (`Task_1.py`, module `PrintOptimizer` in
  `print_optimizer.dfy`). `optimize_printing` sorts the jobs by priority
  ascending, then print time descending. It then repeatedly forms a group by
  a first-fit scan of the remaining jobs, bounded by the printer's item count
  and volume, and removes each chosen job from the list. A group costs its
  longest print time. When no remaining job fits an empty group, the first
  remaining job is printed alone.
  - The sort, the scan and the grouping are pure functions:
    - `SortByKey` (`Task_1.py:24`) is the sort;
    - `Fits` (`Task_1.py:39-42`) is the test a job must pass to join a group;
    - `Volume` (`Task_1.py:34`, `Task_1.py:44`) is a group's volume, summed as `group_volume` is;
    - `FirstFit` (`Task_1.py:36-48`) is one scan of the inner loop;
    - `Batches` (`Task_1.py:32-59`) is the list of groups the outer loop forms;
    - `OrderOf` (`Task_1.py:51`, `Task_1.py:57`) is the print order, group after group;
    - `TotalTime` (`Task_1.py:52-53`, `Task_1.py:58`) sums each group's longest print time;
    - `Schedule` (`Task_1.py:19-61`) combines them into the plan.
  - The method `OptimizePrinting` keeps the source's loops and list removals,
    and is proved to return `Schedule(printJobs, printer)`.
- `sequences.dfy` (module `Sequences`) holds one shared fact about
  concatenation.

Where the code behaves differently from what one might expect, the model
follows the code:

- **Length 4, prices [3, 5, 6, 7].** The recurrence gives 12 with four
  pieces of length 1, not 10 with two pieces of length 2 (`UniformCuts`).
- **Memo solver and short price lists.** `rod_cutting_memo` reads
  `prices[i - 1]` for every `i` up to the length without a guard. It
  therefore demands `length <= len(prices)`, and `RodCuttingMemo` requires
  exactly that.
- **Table solver and an empty price list.** `rod_cutting_table` skips pieces
  without a price. With an empty price list and a positive length it records
  no cut, and its reconstruction loop never ends. `RodCuttingTable` therefore
  requires `Solvable`: a price list with at least one entry, unless the
  length is 0.
- **The starting value of minus infinity.** The running maximum starts at
  minus infinity, and the first candidate always replaces it. The model
  starts from the first candidate instead (`i == 1 ||`, `j == 1 ||`).

## Model

| member | source | states |
|---|---|---|
| RodCutting.FirstBest | Task_2.py:27-31 | The piece recorded by the running maximum is one of the candidates tried so far. |
| RodCutting.BestCut | Task_2.py:27-34 | The recorded first cut of a length `n >= 1` lies in `1..min(n, len(prices))`. |
| RodCutting.MaxCandidateIsFirstMaximum | Task_2.py:27-31 | The strict-`>` running maximum over candidates 1..k is their largest value. The recorded piece reaches it, and every smaller piece is strictly worse, so ties go to the smallest piece. |
| RodCutting.BestCutIsFirstOptimal | Task_2.py:27-34 | The recorded first cut of n earns the optimum. No priced first piece earns more, and every shorter first piece earns strictly less. |
| RodCutting.ReconstructIsOptimalCutting | Task_2.py:40-47 | The rebuilt pieces all have a price, sum exactly to the length, and sell for the returned maximum profit. |
| RodCutting.OptIsUpperBound | Task_2.py:18-36 | No way of writing a length as a sum of priced pieces sells for more than the computed optimum. |
| RodCutting.OptMonotone | Task_2.py:27-28 | When the unit piece has a non-negative price, a rod one unit longer is never worth less. |
| RodCutting.WholeRodWhenUnbeaten | Task_2.py:27-31 | If no split beats the whole rod's own price, the optimum is that price. If every split is strictly worse, the rod is returned uncut. |
| RodCutting.StoreKeepsCached | Task_2.py:33-34 | Storing the optimum and first best cut of n, once every shorter length is cached, keeps every cached entry correct and the cache closed downwards. |
| RodCutting.MemoTable.constructor | Task_2.py:15-16 | Both dictionaries start empty, which satisfies the cache invariant. |
| RodCutting.MemoTable.Helper | Task_2.py:18-36 | Returns the optimum for n and keeps the cache invariant. Afterwards lengths 1..n are cached, no key is lost, and no key outside the old keys and 1..n is added. For 0 or a cached n, both dictionaries are left unchanged. |
| RodCutting.MemoTable.TryFirstPieces | Task_2.py:24-31 | The candidate loop returns the optimum for n and its smallest best first piece. It leaves lengths 1..n-1 cached, adds no key outside the old keys and 1..n-1, and keeps the cache invariant intact. |
| RodCutting.RodCuttingMemo | Task_2.py:4-47 | For `length <= len(prices)`, returns `Solution`: the optimum, the rebuilt pieces, and their count minus one. |
| RodCutting.CollectMemoCuts | Task_2.py:40-45 | Following the cached first cuts from the length down to 0 yields exactly `Reconstruct(prices, length)`. |
| RodCutting.CollectStep | Task_2.py:43-45 | Moving the first cut of the remaining length to the collected pieces keeps the collected pieces, followed by the reconstruction of the remainder, equal to the full reconstruction. |
| RodCutting.RodCuttingTable | Task_2.py:50-84 | For a solvable input, returns `Solution`. The outer loop keeps `dp[k]` and `cuts[k]` equal to the optimum and first best cut of every finished length. |
| RodCutting.CollectCuts | Task_2.py:73-78 | Following the table's first cuts from the length down to 0 yields exactly `Reconstruct(prices, length)`. |
| RodCutting.CompareStrategies | Task_2.py:27-31 | On any input both solvers accept, they return the same profit, the same pieces and the same count. The memo candidate loop here and the table candidate loop at Task_2.py:66-70 try the pieces in the same order with the same strict `>`. |
| RodCutting.BasicCase | Task_2.py:90 | Length 5, prices [2, 5, 7, 8, 10]: profit 12, pieces [1, 2, 2], 2 cuts. |
| RodCutting.BestNotToCut | Task_2.py:91 | Length 3, prices [1, 3, 8]: profit 8, pieces [3], 0 cuts. |
| RodCutting.UniformCuts | Task_2.py:92 | Length 4, prices [3, 5, 6, 7]: profit 12, pieces [1, 1, 1, 1], 3 cuts. |
| RodCutting.EmptyRod | Task_2.py:47 | Length 0 gives profit 0, no pieces, and `number_of_cuts` -1, for any price list. |
| PrintOptimizer.Insert | Task_1.py:24 | Inserting one job lengthens the list by one and puts either that job or the old head first. |
| PrintOptimizer.InsertPermutes | Task_1.py:24 | Inserting adds exactly that job to the multiset of jobs. |
| PrintOptimizer.InsertIds | Task_1.py:24 | Inserting adds exactly that job's id to the multiset of ids. |
| PrintOptimizer.InsertSorted | Task_1.py:24 | Inserting into a list sorted by (priority, -print_time) keeps it sorted. |
| PrintOptimizer.SortByKey | Task_1.py:24 | The sorted list is ordered by priority ascending, then print time descending. |
| PrintOptimizer.SortByKeyPermutes | Task_1.py:24 | The sort is a permutation of the jobs. |
| PrintOptimizer.SortByKeyKeepsIds | Task_1.py:24 | The sort keeps the multiset of job ids. |
| PrintOptimizer.InsertKeepsKeyOrder | Task_1.py:24 | Insertion places a job ahead of the jobs with an equal key and leaves their order alone. |
| PrintOptimizer.SortIsStable | Task_1.py:24 | For every key, the jobs with that key appear in the sorted list in their input order. |
| PrintOptimizer.FirstFit | Task_1.py:36-48 | The scan only adds to the group and to the skipped jobs. No job is lost. If nothing is taken, the remaining list is the skipped jobs followed by the unscanned ones. |
| PrintOptimizer.ScanTakes | Task_1.py:39-46 | Taking `jobs[j]` removes it from the list without advancing `j`. The scan's outcome is unchanged. |
| PrintOptimizer.ScanSkips | Task_1.py:47-48 | Passing over a job that does not fit advances `j`. The scan's outcome is unchanged. |
| PrintOptimizer.InterleavesIds | Task_1.py:36-48 | Splitting a list into two order-preserving parts keeps the multiset of ids. |
| PrintOptimizer.FirstFitInterleaves | Task_1.py:36-48 | The scan splits the pending jobs into the taken ones and the skipped ones, each in its original order. |
| PrintOptimizer.FirstFitWithinLimits | Task_1.py:39-44 | A group built by the scan has at most `max_items` jobs and a total volume of at most `max_volume`. |
| PrintOptimizer.FirstFitEmptyIffNoneFits | Task_1.py:39-56 | The scan takes nothing if and only if no remaining job fits an empty group on its own. |
| PrintOptimizer.Batches | Task_1.py:32-59 | The outer loop never emits an empty group. |
| PrintOptimizer.MaxTime | Task_1.py:52 | A group's time is the print time of one of its jobs and at least that of every job in it. |
| PrintOptimizer.PassOfOuterLoop | Task_1.py:50-59 | One pass appends the group's ids and adds its longest print time. When nothing fits, it appends the first job's id and adds that job's own print time. |
| PrintOptimizer.OuterLoopStep | Task_1.py:50-59 | One pass keeps the print order and total time so far, followed by the plan for the remaining jobs, equal to the plan for the whole sorted list. |
| PrintOptimizer.BatchesPermuteIds | Task_1.py:32-59 | Every job id is printed exactly as often as it occurs among the jobs. |
| PrintOptimizer.BatchesRespectLimits | Task_1.py:39-56 | Every group respects both limits, except a job that fits no empty group, which is printed alone. |
| PrintOptimizer.ScheduleIsPermutation | Task_1.py:19-61 | The print order is a permutation of the input job ids. |
| PrintOptimizer.FormGroup | Task_1.py:33-48 | The inner loop returns the first-fit group and leaves the skipped jobs in the list in their order, as `FirstFit` describes. |
| PrintOptimizer.OptimizePrinting | Task_1.py:19-61 | Returns `Schedule`. Its print order is the ids of the groups, group after group, and its total time is the sum of each group's longest print time. |
| PrintOptimizer.PlanOfTwoGroups | Task_1.py:50-53 | A pair followed by a single job prints in that order and costs the pair's maximum plus the single job's time. |
| PrintOptimizer.PlanOfSingletons | Task_1.py:54-58 | Three jobs printed alone print in order and cost the sum of their times. |
| PrintOptimizer.SamePrioritySorted | Task_1.py:68-72 | Equal priorities: the sort orders the jobs M3, M1, M2 by descending print time. |
| PrintOptimizer.SamePriorityGroups | Task_1.py:68-72 | M3 and M1 share the printer; M2 would be a third item, so it goes alone. |
| PrintOptimizer.SamePriority | Task_1.py:68-72 | Print order [M3, M1, M2], total time 240. |
| PrintOptimizer.MixedSorted | Task_1.py:74-78 | The priorities order the jobs M2, M1, M3. |
| PrintOptimizer.MixedGroups | Task_1.py:74-78 | M2 and M1 share the printer (volume 250), and M3 goes alone. |
| PrintOptimizer.DifferentPriorities | Task_1.py:74-78 | Print order [M2, M1, M3], total time 270. |
| PrintOptimizer.LargeSorted | Task_1.py:80-84 | The jobs are already in key order. |
| PrintOptimizer.LargeGroups | Task_1.py:80-84 | No two jobs fit together in volume 300, so each job is printed alone. |
| PrintOptimizer.OverLimits | Task_1.py:80-84 | Print order [M1, M2, M3], total time 450. |

## Left out

- The demo drivers `run_tests` and `test_printing_optimization`, and both `__main__` blocks, are left out. They only print to the console. Their inputs are stated as lemmas instead.
- The `float("-inf")` starting value of both running maxima is not modelled. The first candidate always replaces it, and the model starts from that candidate.
- Negative lengths are not modelled (`length: nat`).
- RodCuttingMemo: requires `length <= len(prices)`. The source raises an `IndexError` otherwise, and that exception is not modelled.
- RodCuttingTable: requires a non-empty price list for a positive length. Otherwise the source's reconstruction loop never terminates.
- Building `PrintJob` and `PrinterConstraints` from dictionaries (`**job`, `**constraints`) is not modelled. The model takes the records directly.
- Python's sort algorithm is not modelled. The sort is a stable insertion sort, proved sorted, a permutation, and stable, which determines the same result.
- Volumes are `real`, not binary floating point. The source only adds them and compares with `<=`, and rounding is not part of the logic.
- The dictionary return shapes are modelled as the datatypes `RodResult` and `PrintPlan`.
- The recursion depth and running time of the memo helper are not modelled.
- MemoTable.Helper: the candidate loop of `helper` is a separate method, `TryFirstPieces`, called by `Helper`. The two are mutually recursive, as the nested function and its loop are.
- RodCuttingTable: the reconstruction loop of `rod_cutting_table` is a separate method, `CollectCuts`. The reconstruction loop of `rod_cutting_memo` is likewise `CollectMemoCuts`.
- OptimizePrinting: the inner scan is a separate method, `FormGroup`. Its index starts at 0, because the outer loop's `i` is never advanced in the source. The list length `n` is re-read after each pass rather than decremented in place. It has the same value.
