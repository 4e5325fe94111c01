/**
 * A worked example: the sorted output of three sorted chunks
 * [5, 9], [1, 2, 7], [3, 3, 8], with and without a limit of 4 rows.
 */
module SortingScenarios {
  import opened SortedRuns

  /** The fully sorted rows of the three chunks, and the first four of them. */
  lemma ThreeChunks()
    ensures SortedOutput(0, [[5, 9], [1, 2, 7], [3, 3, 8]]) == [1, 2, 3, 3, 5, 7, 8, 9]
    ensures SortedOutput(4, [[5, 9], [1, 2, 7], [3, 3, 8]]) == [1, 2, 3, 3]
  {
    var runs: seq<seq<int>> := [[5, 9], [1, 2, 7], [3, 3, 8]];
    assert runs[1..] == [[1, 2, 7], [3, 3, 8]] && runs[1..][1..] == [[3, 3, 8]];
    assert MergeAll([[3, 3, 8]]) == [3, 3, 8] by {
      assert [[3, 3, 8]][1..] == [];
    }
    MergeSecondAndThird();
    MergeFirst();
    assert MergeAll(runs) == [1, 2, 3, 3, 5, 7, 8, 9];
  }

  lemma MergeSecondAndThird()
    ensures Merge([1, 2, 7], [3, 3, 8]) == [1, 2, 3, 3, 7, 8]
  {
    calc {
      Merge([1, 2, 7], [3, 3, 8]);
      [1] + Merge([2, 7], [3, 3, 8]);
      [1, 2] + Merge([7], [3, 3, 8]);
      [1, 2, 3] + Merge([7], [3, 8]);
      [1, 2, 3, 3] + Merge([7], [8]);
      [1, 2, 3, 3, 7] + Merge([], [8]);
      [1, 2, 3, 3, 7, 8];
    }
  }

  lemma MergeFirst()
    ensures Merge([5, 9], [1, 2, 3, 3, 7, 8]) == [1, 2, 3, 3, 5, 7, 8, 9]
  {
    calc {
      Merge([5, 9], [1, 2, 3, 3, 7, 8]);
      [1] + Merge([5, 9], [2, 3, 3, 7, 8]);
      [1, 2] + Merge([5, 9], [3, 3, 7, 8]);
      [1, 2, 3] + Merge([5, 9], [3, 7, 8]);
      [1, 2, 3, 3] + Merge([5, 9], [7, 8]);
      [1, 2, 3, 3, 5] + Merge([9], [7, 8]);
      [1, 2, 3, 3, 5, 7] + Merge([9], [8]);
      [1, 2, 3, 3, 5, 7, 8] + Merge([9], []);
      [1, 2, 3, 3, 5, 7, 8, 9];
    }
  }
}
