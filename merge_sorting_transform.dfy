/**
 * The in-memory part of the merge-sorting operator: it takes chunks that are
 * each sorted, buffers them with running totals of rows and bytes, compacts
 * the buffer ("remerge") to at most `limit` rows while that saves memory,
 * moves sorted runs out of memory ("spill") when its policy says so, and at
 * the end returns the globally sorted stream, cut to `limit` rows when
 * `limit` is not 0.
 *
 * A spill is modelled as appending the merged run to the list `spilled`;
 * there is no disk here. The two trigger policies and the memory measure of
 * a chunk are fixed at construction and left uninterpreted.
 */
module MergeSorting {
  import opened SortedRuns
  import opened Merging

  /** Sum of the memory measure over the buffered chunks. */
  function BufferedBytes(allocatedBytes: seq<int> -> nat, chunks: seq<seq<int>>): nat {
    if chunks == [] then 0
    else BufferedBytes(allocatedBytes, chunks[..|chunks| - 1]) + allocatedBytes(chunks[|chunks| - 1])
  }

  lemma BufferedBytesAppend(allocatedBytes: seq<int> -> nat, chunks: seq<seq<int>>, c: seq<int>)
    ensures BufferedBytes(allocatedBytes, chunks + [c]) == BufferedBytes(allocatedBytes, chunks) + allocatedBytes(c)
  {
    assert (chunks + [c])[..|chunks|] == chunks;
  }

  lemma BufferedBytesSingle(allocatedBytes: seq<int> -> nat, c: seq<int>)
    ensures BufferedBytes(allocatedBytes, [c]) == allocatedBytes(c)
  {
    assert [c][..0] == [];
  }

  lemma TotalRowsAppend(chunks: seq<seq<int>>, c: seq<int>)
    ensures TotalRows(chunks + [c]) == TotalRows(chunks) + |c|
  {
    BagAppend(chunks, [c]);
    assert Bag([c]) == multiset(c) by { assert [c][1..] == []; }
    TotalRowsIsBagSize(chunks + [c]);
    TotalRowsIsBagSize(chunks);
  }

  lemma TotalRowsSingle(c: seq<int>)
    ensures TotalRows([c]) == |c|
  {
    assert [c][1..] == [];
  }

  /**
   * Replacing the buffered chunks by their own sorted output (remerge) or
   * moving that output to the spilled runs (spill) keeps the final output.
   */
  lemma CompactKeepsOutput(limit: nat, spilled: seq<seq<int>>, chunks: seq<seq<int>>, consumed: seq<seq<int>>)
    requires AllSorted(spilled) && AllSorted(chunks)
    requires SortedOutput(limit, spilled + chunks) == SortedOutput(limit, consumed)
    ensures var run := SortedOutput(limit, chunks);
      && Sorted(run) && AllSorted(spilled + [run])
      && SortedOutput(limit, spilled + [run]) == SortedOutput(limit, consumed)
  {
    var run := SortedOutput(limit, chunks);
    SortedOutputSorted(limit, chunks);
    CompactGroup(limit, spilled, chunks);
    AllSortedAppend(spilled, [run]);
  }

  /** Buffering one more sorted chunk adds it to what the output is made from. */
  lemma AppendKeepsOutput(limit: nat, spilled: seq<seq<int>>, chunks: seq<seq<int>>,
                          consumed: seq<seq<int>>, rows: seq<int>)
    requires AllSorted(spilled) && AllSorted(chunks) && AllSorted(consumed) && Sorted(rows)
    requires SortedOutput(limit, spilled + chunks) == SortedOutput(limit, consumed)
    ensures AllSorted(chunks + [rows]) && AllSorted(consumed + [rows])
    ensures SortedOutput(limit, spilled + (chunks + [rows])) == SortedOutput(limit, consumed + [rows])
  {
    AllSortedAppend(chunks, [rows]);
    AllSortedAppend(consumed, [rows]);
    AllSortedAppend(spilled, chunks);
    AppendRun(limit, spilled + chunks, consumed, rows);
    assert spilled + chunks + [rows] == spilled + (chunks + [rows]);
  }

  /** The totals of a buffer compacted to its own sorted output. */
  lemma SingleRunTotals(limit: nat, chunks: seq<seq<int>>, allocatedBytes: seq<int> -> nat)
    ensures var run := SortedOutput(limit, chunks);
      && TotalRows([run]) == |run| <= TotalRows(chunks)
      && (limit != 0 ==> |run| <= limit)
      && BufferedBytes(allocatedBytes, [run]) == allocatedBytes(run)
  {
    var run := SortedOutput(limit, chunks);
    TotalRowsSingle(run);
    BufferedBytesSingle(allocatedBytes, run);
    MergeAllRows(chunks);
  }

  class MergeSortingTransform {
    /** 0: return every row; otherwise at most the first `limit` rows in sorted order. */
    const limit: nat
    const maxBytesBeforeRemerge: nat
    /** Whole-number stand-in for the factor by which a remerge must lower memory to stay useful. */
    const loweredRatio: nat
    const maxBytesBeforeExternalSort: nat
    /** Remerge trigger over (buffered rows, buffered bytes, maxBytesBeforeRemerge). */
    const remergeWanted: (nat, nat, nat) -> bool
    /** Spill trigger over (buffered rows, buffered bytes, maxBytesBeforeExternalSort). */
    const spillWanted: (nat, nat, nat) -> bool
    /** Memory taken by a chunk holding the given rows. */
    const allocatedBytes: seq<int> -> nat

    /** The buffered chunks, each sorted, not sorted relative to each other. */
    var chunks: seq<seq<int>>
    /** Sorted runs moved out of memory, oldest first. */
    var spilled: seq<seq<int>>
    var sumRows: nat
    var sumBytes: nat
    var remergeIsUseful: bool
    /** Every chunk consumed so far, in order. */
    ghost var consumed: seq<seq<int>>

    /**
     * The counters are the totals of the buffered chunks, and what the
     * buffered and spilled data will produce is exactly what the consumed
     * chunks call for.
     */
    ghost predicate Valid()
      reads this
    {
      && AllSorted(chunks) && AllSorted(spilled) && AllSorted(consumed)
      && sumRows == TotalRows(chunks)
      && sumBytes == BufferedBytes(allocatedBytes, chunks)
      && SortedOutput(limit, spilled + chunks) == SortedOutput(limit, consumed)
    }

    constructor (limit: nat, maxBytesBeforeRemerge: nat, loweredRatio: nat,
                 maxBytesBeforeExternalSort: nat, remergeWanted: (nat, nat, nat) -> bool,
                 spillWanted: (nat, nat, nat) -> bool, allocatedBytes: seq<int> -> nat)
      ensures Valid()
      ensures this.limit == limit && this.maxBytesBeforeRemerge == maxBytesBeforeRemerge
      ensures this.loweredRatio == loweredRatio
      ensures this.maxBytesBeforeExternalSort == maxBytesBeforeExternalSort
      ensures this.remergeWanted == remergeWanted && this.spillWanted == spillWanted
      ensures this.allocatedBytes == allocatedBytes
      ensures chunks == [] && spilled == [] && consumed == []
      ensures sumRows == 0 && sumBytes == 0 && remergeIsUseful
    {
      this.limit := limit;
      this.maxBytesBeforeRemerge := maxBytesBeforeRemerge;
      this.loweredRatio := loweredRatio;
      this.maxBytesBeforeExternalSort := maxBytesBeforeExternalSort;
      this.remergeWanted := remergeWanted;
      this.spillWanted := spillWanted;
      this.allocatedBytes := allocatedBytes;
      chunks, spilled, consumed := [], [], [];
      sumRows, sumBytes := 0, 0;
      remergeIsUseful := true;
    }

    /**
     * Buffers one sorted chunk and updates the totals; then remerges when a
     * limit is set, remerge is still useful and the policy asks for it; then
     * spills when the spill policy asks for it.
     */
    method Consume(rows: seq<int>)
      requires Valid() && Sorted(rows)
      modifies this
      ensures Valid()
      ensures consumed == old(consumed) + [rows]
      ensures remergeIsUseful ==> old(remergeIsUseful)
      ensures var appended := old(chunks) + [rows];
        var rowsIn, bytesIn := old(sumRows) + |rows|, old(sumBytes) + allocatedBytes(rows);
        var remerged := limit != 0 && old(remergeIsUseful) && remergeWanted(rowsIn, bytesIn, maxBytesBeforeRemerge);
        var run := SortedOutput(limit, appended);
        var kept := if remerged then [run] else appended;
        var spill := if remerged then spillWanted(|run|, allocatedBytes(run), maxBytesBeforeExternalSort)
                     else spillWanted(rowsIn, bytesIn, maxBytesBeforeExternalSort);
        && chunks == (if spill then [] else kept)
        && spilled == (if spill then old(spilled) + [SortedOutput(limit, kept)] else old(spilled))
        && remergeIsUseful == (old(remergeIsUseful) && !(remerged && bytesIn < loweredRatio * allocatedBytes(run)))
    {
      ghost var appended := chunks + [rows];
      ghost var run := SortedOutput(limit, appended);
      Buffer(rows);
      ghost var kept := appended;
      if limit != 0 && remergeIsUseful && remergeWanted(sumRows, sumBytes, maxBytesBeforeRemerge) {
        Remerge();
        kept := [run];
        assert sumRows == |run| && sumBytes == allocatedBytes(run);
      }
      assert chunks == kept;
      if spillWanted(sumRows, sumBytes, maxBytesBeforeExternalSort) {
        Spill();
      }
    }

    /** Appends one sorted chunk to the buffer and adds its rows and bytes to the totals. */
    method Buffer(rows: seq<int>)
      requires Valid() && Sorted(rows)
      modifies this
      ensures Valid()
      ensures consumed == old(consumed) + [rows] && chunks == old(chunks) + [rows]
      ensures spilled == old(spilled) && remergeIsUseful == old(remergeIsUseful)
      ensures sumRows == old(sumRows) + |rows| && sumBytes == old(sumBytes) + allocatedBytes(rows)
    {
      AppendKeepsOutput(limit, spilled, chunks, consumed, rows);
      TotalRowsAppend(chunks, rows);
      BufferedBytesAppend(allocatedBytes, chunks, rows);
      sumRows := sumRows + |rows|;
      sumBytes := sumBytes + allocatedBytes(rows);
      chunks := chunks + [rows];
      consumed := consumed + [rows];
    }

    /**
     * Merges all buffered chunks into one sorted run of at most `limit` rows
     * and recounts; marks remerge useless when it did not lower the buffered
     * bytes by the required factor.
     */
    method Remerge()
      requires Valid()
      modifies this
      ensures Valid()
      ensures consumed == old(consumed) && spilled == old(spilled)
      ensures chunks == [SortedOutput(limit, old(chunks))]
      ensures sumRows == |chunks[0]| <= old(sumRows)
      ensures limit != 0 ==> sumRows <= limit
      ensures sumBytes == allocatedBytes(chunks[0])
      ensures remergeIsUseful == (old(remergeIsUseful) && !(old(sumBytes) < loweredRatio * sumBytes))
    {
      var merged := KWayMerge(chunks, limit);
      var bytesAfter := allocatedBytes(merged);
      if sumBytes < loweredRatio * bytesAfter {
        remergeIsUseful := false;
      }
      CompactKeepsOutput(limit, spilled, chunks, consumed);
      SingleRunTotals(limit, chunks, allocatedBytes);
      chunks := [merged];
      sumRows := |merged|;
      sumBytes := bytesAfter;
    }

    /**
     * Moves the buffered rows out of memory as one sorted run of at most
     * `limit` rows and resets the buffer and its totals.
     */
    method Spill()
      requires Valid()
      modifies this
      ensures Valid()
      ensures consumed == old(consumed) && remergeIsUseful == old(remergeIsUseful)
      ensures spilled == old(spilled) + [SortedOutput(limit, old(chunks))]
      ensures chunks == [] && sumRows == 0 && sumBytes == 0
    {
      var run := KWayMerge(chunks, limit);
      CompactKeepsOutput(limit, spilled, chunks, consumed);
      assert spilled + [run] + [] == spilled + [run];
      spilled := spilled + [run];
      chunks := [];
      sumRows, sumBytes := 0, 0;
    }

    /**
     * The final output: the merge of the buffered chunks when nothing was
     * spilled, otherwise the merge of every spilled run with the last
     * in-memory run.
     */
    method Generate() returns (output: seq<int>)
      requires Valid()
      ensures output == SortedOutput(limit, consumed)
      ensures Sorted(output)
      ensures limit == 0 ==> multiset(output) == Bag(consumed)
      ensures limit != 0 ==> |output| == Min(limit, TotalRows(consumed))
    {
      var last := KWayMerge(chunks, limit);
      if spilled == [] {
        assert spilled + chunks == chunks;
        output := last;
      } else {
        SortedOutputSorted(limit, chunks);
        CompactGroup(limit, spilled, chunks);
        AllSortedAppend(spilled, [last]);
        output := KWayMerge(spilled + [last], limit);
      }
      SortedOutputSorted(limit, consumed);
      SortedOutputNoLimit(consumed);
      if limit != 0 {
        SortedOutputLength(limit, consumed);
      }
    }
  }
}
