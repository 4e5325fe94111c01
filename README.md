# MergeSortingTransform, modelled in Dafny

This project models the in-memory core of ClickHouse's `MergeSortingTransform`,
the processor that takes chunks, each already sorted by the sort description,
and produces one globally sorted stream. When a `limit` is set (not 0), it
produces only the first `limit` rows in sorted order.

While it consumes chunks, the operator does the following:

- It buffers the chunks and keeps running totals of buffered rows and bytes
  (`sum_rows_in_blocks`, `sum_bytes_in_blocks`).
- When a limit is set, it may compact the buffer ("remerge"). Remerge merges
  every buffered chunk into one run of at most `limit` rows. If that does not
  lower memory by the configured factor, remerge is marked useless and never
  attempted again.
- When its spill policy says so, it moves the buffered rows out of memory as a
  sorted run. At the end it merges the spilled runs with what is still in
  memory.

The model has three modules:

- `SortedRuns` is the specification. A row is an `int` sort key, a chunk is a
  `seq<int>`, and `SortedOutput(limit, runs)` is the first `limit` rows of the
  merge of all runs (every row when `limit` is 0). Its lemmas prove the
  promises of the header's comments:
  - the output is sorted;
  - without a limit it holds exactly the input rows;
  - under a limit it holds the `min(limit, rows)` smallest rows;
  - it is the prefix of *the* sorted arrangement of the input. This holds
    because a row is its key alone, so a sorted permutation of key-only rows
    is unique;
  - compacting any group of runs to its own limited output leaves the final
    output unchanged. This is why remerge and spilling are safe.
- `Merging` holds the k-way merge as a loop. `MinHead` picks the run with the
  smallest first row, and `KWayMerge` emits rows until the runs are exhausted
  or `limit` rows are out. It is proved equal to `SortedOutput`.
- `MergeSorting` holds the operator as a class. Its fields are the buffered
  chunks, the spilled runs, the two totals and the remerge-usefulness flag.
  `Consume`, `Remerge`, `Spill` and `Generate` update them in place. The class
  invariant `Valid()` keeps three facts:
  - the totals match the buffered chunks;
  - every run is sorted;
  - the output the buffered and spilled runs will produce equals the
    `SortedOutput` of every chunk consumed so far (a ghost field).

  `Generate` then provably returns `SortedOutput(limit, consumed)`.

The remerge and spill trigger policies are constructor parameters. So is the
memory measure of a chunk. The body of `consume` is in `MergeSortingTransform.cpp`,
which is not part of this model. The model remerges only when a limit is set,
remerge is still useful, and the remerge policy asks for it. After that, it
spills when the spill policy asks for it.

The header comment at `src/Processors/Transforms/MergeSortingTransform.h:59-60`
gives no count of failed attempts. The model clears `remergeIsUseful` after the
first remerge whose bytes before are less than `loweredRatio` times its bytes
after.

## Model

| member | source | states |
|---|---|---|
| SortedRuns.MergeRows | src/Processors/Transforms/MergeSortingTransform.h:17-18 | merging two runs keeps exactly their rows (multiset and length) |
| SortedRuns.MergeSorted | src/Processors/Transforms/MergeSortingTransform.h:17-18 | the merge of two sorted runs is sorted |
| SortedRuns.MergeAllRows | src/Processors/Transforms/MergeSortingTransform.h:17-18 | merging all chunks keeps exactly the rows of all chunks and their total count |
| SortedRuns.MergeAllSorted | src/Processors/Transforms/MergeSortingTransform.h:17-18 | merging sorted chunks gives a sorted stream |
| SortedRuns.SortedUnique | src/Processors/Transforms/MergeSortingTransform.h:17-18 | two sorted sequences with the same key-only rows are equal, so "globally sorted data" of keys is one well-defined result |
| SortedRuns.MergeAllIsSortedBag | src/Processors/Transforms/MergeSortingTransform.h:17-18 | the merge of sorted chunks is the unique sorted arrangement of their key-only rows |
| SortedRuns.SortedOutputSorted | src/Processors/Transforms/MergeSortingTransform.h:17-18 | the output over sorted chunks is globally sorted, with or without a limit |
| SortedRuns.SortedOutputNoLimit | src/Processors/Transforms/MergeSortingTransform.h:22 | with limit 0 the output holds exactly the input rows, none dropped or added |
| SortedRuns.SortedOutputLength | src/Processors/Transforms/MergeSortingTransform.h:22 | with a limit the output has min(limit, total rows) rows |
| SortedRuns.SortedOutputIsPrefixOfSorted | src/Processors/Transforms/MergeSortingTransform.h:22 | the output is the first `limit` rows (all for 0) of any sorted arrangement of the input rows |
| SortedRuns.SortedOutputKeepsSmallest | src/Processors/Transforms/MergeSortingTransform.h:22 | the kept rows are input rows, and none is larger than any row cut off by the limit |
| SortedRuns.SortedOutputDependsOnRowsOnly | src/Processors/Transforms/MergeSortingTransform.h:17-18 | for key-only rows, the output depends only on which keys arrived, not on how they were split into chunks or ordered |
| SortedRuns.MergePrefix | src/Processors/Transforms/MergeSortingTransform.h:62 | cutting one side of a merge to its first n rows does not change the first n rows of the merge |
| SortedRuns.MergeAllConcat | src/Processors/Transforms/MergeSortingTransform.h:62-63 | merging two groups of chunks is merging the merges of the groups |
| SortedRuns.CompactGroup | src/Processors/Transforms/MergeSortingTransform.h:62-63 | replacing a group of chunks by its own sorted output of at most `limit` rows leaves the final output unchanged |
| SortedRuns.AppendRun | src/Processors/Transforms/MergeSortingTransform.h:38 | buffers that produce the same output still do after both receive the same chunk |
| Merging.MinHead | src/Processors/Transforms/MergeSortingTransform.h:17-18 | returns a non-empty run whose head is the smallest head, or -1 exactly when every run is exhausted |
| Merging.KWayMerge | src/Processors/Transforms/MergeSortingTransform.h:17-22 | the loop merge of sorted runs stopping at `limit` rows returns exactly SortedOutput(limit, runs) |
| Merging.EmitHead | src/Processors/Transforms/MergeSortingTransform.h:17-18 | emitting the smallest head keeps the output sorted and below every remaining row, and moves one row |
| Merging.EmittedThenRest | src/Processors/Transforms/MergeSortingTransform.h:17-18 | rows emitted so far followed by the merge of what is left is the fully sorted input |
| Merging.Conclude | src/Processors/Transforms/MergeSortingTransform.h:22 | when the loop stops with the runs exhausted or `limit` rows out, its output is SortedOutput |
| MergeSorting.BufferedBytesAppend | src/Processors/Transforms/MergeSortingTransform.h:55 | buffering a chunk adds its memory measure to the buffered bytes |
| MergeSorting.TotalRowsAppend | src/Processors/Transforms/MergeSortingTransform.h:54 | buffering a chunk adds its row count to the buffered rows |
| MergeSorting.CompactKeepsOutput | src/Processors/Transforms/MergeSortingTransform.h:62-63 | turning the buffer into its limited sorted run, whether kept in memory or spilled, keeps the final output |
| MergeSorting.AppendKeepsOutput | src/Processors/Transforms/MergeSortingTransform.h:38 | buffering a sorted chunk adds it to what the final output is made of |
| MergeSorting.SingleRunTotals | src/Processors/Transforms/MergeSortingTransform.h:62 | a remerged buffer has no more rows than before, at most `limit` of them, and its own memory measure |
| MergeSorting.MergeSortingTransform.constructor | src/Processors/Transforms/MergeSortingTransform.h:23-33 | the configuration is stored, the buffer is empty, both totals are 0 and remerge starts useful |
| MergeSorting.MergeSortingTransform.Consume | src/Processors/Transforms/MergeSortingTransform.h:38 | buffers the chunk, remerges when limit, usefulness and policy allow, then spills when the policy asks; the exact new buffer, spilled runs and flag, and the invariant is kept |
| MergeSorting.MergeSortingTransform.Buffer | src/Processors/Transforms/MergeSortingTransform.h:54-55 | appends the chunk and adds its rows and bytes to the totals, keeping the invariant |
| MergeSorting.MergeSortingTransform.Remerge | src/Processors/Transforms/MergeSortingTransform.h:59-63 | the buffer becomes one run, its limited sorted output; the row total never grows and is at most `limit`; the byte total is recounted; the flag clears when memory did not drop by the factor |
| MergeSorting.MergeSortingTransform.Spill | src/Processors/Transforms/MergeSortingTransform.h:50-55 | the buffer's limited sorted output is added to the spilled runs; buffer and totals are reset; final output unchanged |
| MergeSorting.MergeSortingTransform.Generate | src/Processors/Transforms/MergeSortingTransform.h:40 | returns SortedOutput(limit, every consumed chunk): sorted; every row when limit is 0; min(limit, rows) rows otherwise |
| SortingScenarios.ThreeChunks | src/Processors/Transforms/MergeSortingTransform.h:17-22 | chunks [5,9], [1,2,7], [3,3,8] give [1,2,3,3,5,7,8,9], and [1,2,3,3] under limit 4 |

## Left out

- Sort description and comparator: a row is an `int` key compared ascending. Multi-column keys, descending order, collations and NULL ordering are not modelled.
- Rows with equal keys are identical in the model. In the source, a row carries every column of the header, and rows with equal keys can differ. So the order of tied rows, and which tied rows a limit keeps, are not modelled. These can depend on how the chunks were split and in what order the merge reads them.
- The base class `SortingTransform` (its chunk preparation, output chunking into blocks of `max_merged_block_size`, and removal of constant columns) is not part of this model.
- `MergeSortingTransform.cpp`, with the bodies of `consume`, `remerge` and `generate`, is not part of this model. The trigger policies for remerge and spill are uninterpreted constructor parameters (`remergeWanted`, `spillWanted`) over the buffered rows, the buffered bytes and the threshold. The memory measure of a chunk is a parameter too (`allocatedBytes`).
- `remerge_lowered_memory_bytes_ratio` is a `double` in the source. It is modelled as the whole-number factor `loweredRatio`, because the model has no floating point.
- `size_t` and `UInt64` counters are unbounded naturals. Overflow is not modelled.
- Spilling: `tmp_data`, temporary files, `min_free_disk_space` and the disk itself are abstracted. A spill appends its sorted run to the in-memory list `spilled`. Disk errors and the free-space check are not modelled.
- `serialize` is only declared at `src/Processors/Transforms/MergeSortingTransform.h:39`, with no body shown. It belongs to the spill path, which is abstracted, so it is not modelled.
- `expandPipeline` and `external_merging_sorted` build the sub-pipeline that merges spilled runs. They are pipeline wiring. The model's `Generate` merges the spilled runs directly.
- `supportPartialResultProcessor`, `getPartialResultProcessor`, `MergeSortingPartialResult` and `snapshot_mutex` provide concurrent partial-result snapshots. Concurrency is not modelled.
- `increase_sort_description_compile_attempts` only controls JIT compilation of the comparator. It does not affect results.
- The logger and `getName` have no effect on the data.
- `src/Processors/Formats/Impl/NpyRowInputFormat.h` is not part of this model.
