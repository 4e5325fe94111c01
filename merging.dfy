/**
 * The merge the operator runs over its buffered chunks (and, after a spill,
 * over its spilled runs): a k-way merge that repeatedly emits the smallest
 * head row among all runs and stops early once `limit` rows are out.
 */
module Merging {
  import opened SortedRuns

  /**
   * Index of a non-empty run whose first row is the smallest first row of
   * all runs, or -1 when every run is exhausted.
   */
  method MinHead(runs: seq<seq<int>>) returns (k: int)
    ensures -1 <= k < |runs|
    ensures k == -1 <==> forall i | 0 <= i < |runs| :: runs[i] == []
    ensures k != -1 ==>
      (runs[k] != [] && forall i | 0 <= i < |runs| && runs[i] != [] :: runs[k][0] <= runs[i][0])
  {
    k := -1;
    for i := 0 to |runs|
      invariant -1 <= k < i
      invariant k == -1 <==> forall j | 0 <= j < i :: runs[j] == []
      invariant k != -1 ==>
        (runs[k] != [] && forall j | 0 <= j < i && runs[j] != [] :: runs[k][0] <= runs[j][0])
    {
      if runs[i] != [] && (k == -1 || runs[i][0] < runs[k][0]) {
        k := i;
      }
    }
  }

  /**
   * Merges sorted runs into one sorted sequence, keeping only the first
   * `limit` rows when `limit` is not 0.
   */
  method KWayMerge(runs: seq<seq<int>>, limit: nat) returns (out: seq<int>)
    requires AllSorted(runs)
    ensures out == SortedOutput(limit, runs)
  {
    var cursors := runs;
    out := [];
    var k := MinHead(cursors);
    while k != -1 && (limit == 0 || |out| < limit)
      invariant -1 <= k < |cursors| == |runs|
      invariant k == -1 <==> forall i | 0 <= i < |cursors| :: cursors[i] == []
      invariant k != -1 ==>
        (cursors[k] != [] && forall i | 0 <= i < |cursors| && cursors[i] != [] :: cursors[k][0] <= cursors[i][0])
      invariant AllSorted(cursors)
      invariant Sorted(out)
      invariant out != [] ==> AllAtLeast(out[|out| - 1], cursors)
      invariant multiset(out) + Bag(cursors) == Bag(runs)
      invariant limit != 0 ==> |out| <= limit
      decreases TotalRows(cursors)
    {
      var head, rest := cursors[k][0], cursors[k][1..];
      EmitHead(runs, cursors, out, k);
      out := out + [head];
      cursors := cursors[k := rest];
      k := MinHead(cursors);
    }
    Conclude(runs, cursors, out, limit);
  }

  /**
   * One step of the merge loop keeps its invariant: emitting the smallest
   * head row keeps the output sorted and below every remaining row, and
   * moves exactly that row from the runs to the output.
   */
  lemma EmitHead(runs: seq<seq<int>>, cursors: seq<seq<int>>, out: seq<int>, k: nat)
    requires k < |cursors| && cursors[k] != []
    requires forall i | 0 <= i < |cursors| && cursors[i] != [] :: cursors[k][0] <= cursors[i][0]
    requires AllSorted(cursors) && Sorted(out)
    requires out != [] ==> AllAtLeast(out[|out| - 1], cursors)
    requires multiset(out) + Bag(cursors) == Bag(runs)
    ensures var next, out' := cursors[k := cursors[k][1..]], out + [cursors[k][0]];
      && AllSorted(next) && Sorted(out') && AllAtLeast(out'[|out'| - 1], next)
      && multiset(out') + Bag(next) == Bag(runs)
      && TotalRows(next) < TotalRows(cursors)
  {
    EmitHeadKeepsOrder(cursors, out, k);
    EmitHeadMovesRow(runs, cursors, out, k);
  }

  lemma EmitHeadKeepsOrder(cursors: seq<seq<int>>, out: seq<int>, k: nat)
    requires k < |cursors| && cursors[k] != []
    requires forall i | 0 <= i < |cursors| && cursors[i] != [] :: cursors[k][0] <= cursors[i][0]
    requires AllSorted(cursors) && Sorted(out)
    requires out != [] ==> AllAtLeast(out[|out| - 1], cursors)
    ensures var next, out' := cursors[k := cursors[k][1..]], out + [cursors[k][0]];
      AllSorted(next) && Sorted(out') && AllAtLeast(out'[|out'| - 1], next)
  {
    var head, rest := cursors[k][0], cursors[k][1..];
    var next, out' := cursors[k := rest], out + [head];
    assert AllAtLeast(head, next) by {
      forall i, j | 0 <= i < |next| && 0 <= j < |next[i]| ensures head <= next[i][j] {
        if i == k {
          assert next[i][j] == cursors[k][j + 1];
        } else {
          assert next[i] == cursors[i];
          assert cursors[i][0] <= cursors[i][j];
        }
      }
    }
    assert AllSorted(next) by {
      forall i | 0 <= i < |next| ensures Sorted(next[i]) {
        if i == k { assert Sorted(cursors[k]); } else { assert next[i] == cursors[i]; }
      }
    }
    assert Sorted(out') by {
      if out != [] { assert out[|out| - 1] <= cursors[k][0]; }
    }
  }

  lemma EmitHeadMovesRow(runs: seq<seq<int>>, cursors: seq<seq<int>>, out: seq<int>, k: nat)
    requires k < |cursors| && cursors[k] != []
    requires multiset(out) + Bag(cursors) == Bag(runs)
    ensures var next, out' := cursors[k := cursors[k][1..]], out + [cursors[k][0]];
      multiset(out') + Bag(next) == Bag(runs) && TotalRows(next) < TotalRows(cursors)
  {
    var head, rest := cursors[k][0], cursors[k][1..];
    var next, out' := cursors[k := rest], out + [head];
    BagPop(cursors, k);
    TotalRowsIsBagSize(next);
    TotalRowsIsBagSize(cursors);
    assert multiset(out') == multiset(out) + multiset{head};
    assert |Bag(next)| + 1 == |Bag(cursors)|;
  }

  /**
   * When the merge loop stops, the rows it emitted are the output: the
   * emitted rows followed by the merge of what is left form the fully sorted
   * input, and the loop stopped either at the limit or with nothing left.
   */
  lemma Conclude(runs: seq<seq<int>>, cursors: seq<seq<int>>, out: seq<int>, limit: nat)
    requires AllSorted(runs) && AllSorted(cursors) && Sorted(out)
    requires out != [] ==> AllAtLeast(out[|out| - 1], cursors)
    requires multiset(out) + Bag(cursors) == Bag(runs)
    requires limit != 0 ==> |out| <= limit
    requires (forall i | 0 <= i < |cursors| :: cursors[i] == []) || (limit != 0 && |out| == limit)
    ensures out == SortedOutput(limit, runs)
  {
    var tail := MergeAll(cursors);
    EmittedThenRest(runs, cursors, out);
    if forall i | 0 <= i < |cursors| :: cursors[i] == [] {
      NoRowsLeft(cursors);
      EmptyBagMergesToNothing(cursors);
      assert out + tail == out;
    } else {
      assert (out + tail)[..limit] == out;
    }
  }

  /** The emitted rows followed by the merge of the remaining runs are the fully sorted input. */
  lemma EmittedThenRest(runs: seq<seq<int>>, cursors: seq<seq<int>>, out: seq<int>)
    requires AllSorted(runs) && AllSorted(cursors) && Sorted(out)
    requires out != [] ==> AllAtLeast(out[|out| - 1], cursors)
    requires multiset(out) + Bag(cursors) == Bag(runs)
    ensures MergeAll(runs) == out + MergeAll(cursors)
  {
    var tail := MergeAll(cursors);
    MergeAllSorted(cursors);
    MergeAllRows(cursors);
    if out != [] {
      var last := out[|out| - 1];
      MergeAllAtLeast(last, cursors);
      forall i, j | 0 <= i < |out| && 0 <= j < |tail| ensures out[i] <= tail[j] {
        assert out[i] <= last;
      }
    }
    SortedAppend(out, tail);
    assert multiset(out + tail) == Bag(runs);
    MergeAllIsSortedBag(runs, out + tail);
  }

  /** A lower bound on every row of every run bounds every row of their merge. */
  lemma MergeAllAtLeast(b: int, runs: seq<seq<int>>)
    requires AllAtLeast(b, runs)
    ensures forall j | 0 <= j < |MergeAll(runs)| :: b <= MergeAll(runs)[j]
  {
    var m := MergeAll(runs);
    MergeAllRows(runs);
    AllAtLeastBag(b, runs);
    forall j | 0 <= j < |m| ensures b <= m[j] {
      assert m[j] in multiset(m);
    }
  }

  lemma {:induction false} NoRowsLeft(runs: seq<seq<int>>)
    requires forall i | 0 <= i < |runs| :: runs[i] == []
    ensures Bag(runs) == multiset{}
  {
    if runs != [] {
      NoRowsLeft(runs[1..]);
    }
  }
}
