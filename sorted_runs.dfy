/**
 * Sorted runs of rows and the specification of what a merge-sorting operator
 * returns for them.
 *
 * A row is represented by its sort key, an `int`; the sort description and
 * its comparator are abstracted to the ascending order on `int`. A chunk (or
 * run) is a `seq<int>`, the buffer of chunks a `seq<seq<int>>`.
 *
 * `SortedOutput(limit, runs)` is the result the operator promises: all rows
 * of all runs in sorted order, cut to the first `limit` rows when `limit` is
 * not 0.
 */
module SortedRuns {

  /** Ascending order on the rows of one run. */
  predicate Sorted(s: seq<int>) {
    forall i, j | 0 <= i < j < |s| :: s[i] <= s[j]
  }

  /** Every run of a buffer is individually sorted. */
  predicate AllSorted(runs: seq<seq<int>>) {
    forall i | 0 <= i < |runs| :: Sorted(runs[i])
  }

  /** The multiset of all rows held by a buffer of runs. */
  function Bag(runs: seq<seq<int>>): multiset<int> {
    if runs == [] then multiset{} else multiset(runs[0]) + Bag(runs[1..])
  }

  /** Number of rows held by a buffer of runs. */
  function TotalRows(runs: seq<seq<int>>): nat {
    if runs == [] then 0 else |runs[0]| + TotalRows(runs[1..])
  }

  /** Every row of every run is at least `b`. */
  predicate AllAtLeast(b: int, runs: seq<seq<int>>) {
    forall i, j | 0 <= i < |runs| && 0 <= j < |runs[i]| :: b <= runs[i][j]
  }

  function Min(a: nat, b: nat): nat {
    if a <= b then a else b
  }

  /** Two-way merge of two runs. */
  function Merge(a: seq<int>, b: seq<int>): seq<int>
    decreases |a| + |b|
  {
    if a == [] then b
    else if b == [] then a
    else if a[0] <= b[0] then [a[0]] + Merge(a[1..], b)
    else [b[0]] + Merge(a, b[1..])
  }

  /** Merge of all runs of a buffer, front to back. */
  function MergeAll(runs: seq<seq<int>>): seq<int> {
    if runs == [] then [] else Merge(runs[0], MergeAll(runs[1..]))
  }

  /** The first `n` rows of `s`, or all of `s` when it is shorter. */
  function Prefix(n: nat, s: seq<int>): seq<int> {
    s[..Min(n, |s|)]
  }

  /**
   * The row limit: 0 means unbounded, any other value keeps only the
   * first `limit` rows.
   */
  function Take(limit: nat, s: seq<int>): seq<int> {
    if limit == 0 then s else Prefix(limit, s)
  }

  /** What the operator returns for the rows of `runs` under `limit`. */
  function SortedOutput(limit: nat, runs: seq<seq<int>>): seq<int> {
    Take(limit, MergeAll(runs))
  }

  // ---------------------------------------------------------------------
  // Rows
  // ---------------------------------------------------------------------

  /** The row count of a buffer is the size of its multiset of rows. */
  lemma {:induction false} TotalRowsIsBagSize(runs: seq<seq<int>>)
    ensures TotalRows(runs) == |Bag(runs)|
  {
    if runs != [] {
      TotalRowsIsBagSize(runs[1..]);
    }
  }

  /** A two-way merge neither loses nor invents rows. */
  lemma {:induction false} MergeRows(a: seq<int>, b: seq<int>)
    ensures multiset(Merge(a, b)) == multiset(a) + multiset(b)
    ensures |Merge(a, b)| == |a| + |b|
    decreases |a| + |b|
  {
    if a == [] || b == [] {
    } else if a[0] <= b[0] {
      MergeRows(a[1..], b);
      assert a == [a[0]] + a[1..];
    } else {
      MergeRows(a, b[1..]);
      assert b == [b[0]] + b[1..];
    }
  }

  /** Merging a buffer neither loses nor invents rows. */
  lemma {:induction false} MergeAllRows(runs: seq<seq<int>>)
    ensures multiset(MergeAll(runs)) == Bag(runs)
    ensures |MergeAll(runs)| == TotalRows(runs)
  {
    if runs != [] {
      MergeAllRows(runs[1..]);
      MergeRows(runs[0], MergeAll(runs[1..]));
    }
    TotalRowsIsBagSize(runs);
    assert |MergeAll(runs)| == |multiset(MergeAll(runs))|;
  }

  /** The limit keeps a prefix: `limit` rows, or all rows when there are fewer or `limit` is 0. */
  lemma TakeIsPrefix(limit: nat, s: seq<int>)
    ensures Take(limit, s) <= s
    ensures |Take(limit, s)| == if limit == 0 then |s| else Min(limit, |s|)
  {
  }

  // ---------------------------------------------------------------------
  // Sortedness
  // ---------------------------------------------------------------------

  /** A sorted run followed by a run none of whose rows is smaller is sorted. */
  lemma SortedAppend(a: seq<int>, b: seq<int>)
    requires Sorted(a) && Sorted(b)
    requires forall i, j | 0 <= i < |a| && 0 <= j < |b| :: a[i] <= b[j]
    ensures Sorted(a + b)
  {
  }

  /** The two-way merge of two sorted runs is sorted. */
  lemma {:induction false} MergeSorted(a: seq<int>, b: seq<int>)
    requires Sorted(a) && Sorted(b)
    ensures Sorted(Merge(a, b))
    decreases |a| + |b|
  {
    if a == [] || b == [] {
    } else if a[0] <= b[0] {
      MergeSorted(a[1..], b);
      MergeRows(a[1..], b);
      var t := Merge(a[1..], b);
      forall j | 0 <= j < |t| ensures a[0] <= t[j] {
        assert t[j] in multiset(t);
        assert t[j] in multiset(a[1..]) + multiset(b);
        if t[j] in multiset(a[1..]) {
          var k :| 0 <= k < |a[1..]| && a[1..][k] == t[j];
          assert a[k + 1] == t[j];
        } else {
          var k :| 0 <= k < |b| && b[k] == t[j];
        }
      }
      SortedAppend([a[0]], t);
    } else {
      MergeSorted(a, b[1..]);
      MergeRows(a, b[1..]);
      var t := Merge(a, b[1..]);
      forall j | 0 <= j < |t| ensures b[0] <= t[j] {
        assert t[j] in multiset(t);
        assert t[j] in multiset(a) + multiset(b[1..]);
        if t[j] in multiset(a) {
          var k :| 0 <= k < |a| && a[k] == t[j];
        } else {
          var k :| 0 <= k < |b[1..]| && b[1..][k] == t[j];
          assert b[k + 1] == t[j];
        }
      }
      SortedAppend([b[0]], t);
    }
  }

  /** Merging a buffer of sorted runs gives one sorted run. */
  lemma {:induction false} MergeAllSorted(runs: seq<seq<int>>)
    requires AllSorted(runs)
    ensures Sorted(MergeAll(runs))
  {
    if runs != [] {
      MergeAllSorted(runs[1..]);
      MergeSorted(runs[0], MergeAll(runs[1..]));
    }
  }

  /**
   * A sorted sequence is determined by its multiset of rows: two sorted
   * sequences holding the same rows are equal.
   */
  lemma {:induction false} SortedUnique(s: seq<int>, t: seq<int>)
    requires Sorted(s) && Sorted(t)
    requires multiset(s) == multiset(t)
    ensures s == t
  {
    if s == [] {
      assert |t| == |multiset(t)| == 0;
    } else {
      assert |t| == |multiset(t)| == |s| > 0;
      assert t[0] in multiset(t) && s[0] in multiset(s);
      SortedHeadIsLeast(s, t[0]);
      SortedHeadIsLeast(t, s[0]);
      SameTailRows(s, t);
      SortedTail(s);
      SortedTail(t);
      SortedUnique(s[1..], t[1..]);
      assert s == [s[0]] + s[1..] && t == [t[0]] + t[1..];
    }
  }

  /** Two runs with the same rows and the same first row have the same remaining rows. */
  lemma SameTailRows(s: seq<int>, t: seq<int>)
    requires s != [] && t != [] && s[0] == t[0] && multiset(s) == multiset(t)
    ensures multiset(s[1..]) == multiset(t[1..])
  {
    assert s == [s[0]] + s[1..] && t == [t[0]] + t[1..];
    forall x ensures multiset(s[1..])[x] == multiset(t[1..])[x] {
      assert multiset(s)[x] == multiset{s[0]}[x] + multiset(s[1..])[x];
      assert multiset(t)[x] == multiset{s[0]}[x] + multiset(t[1..])[x];
    }
  }

  lemma SortedTail(s: seq<int>)
    requires Sorted(s) && s != []
    ensures Sorted(s[1..])
  {
  }

  /** The first row of a sorted run is its least row. */
  lemma SortedHeadIsLeast(s: seq<int>, x: int)
    requires Sorted(s) && x in multiset(s)
    ensures s[0] <= x
  {
    var i :| 0 <= i < |s| && s[i] == x;
  }

  /**
   * Merging a buffer of sorted runs gives the one sorted sequence whose rows
   * are exactly the buffer's rows.
   */
  lemma MergeAllIsSortedBag(runs: seq<seq<int>>, s: seq<int>)
    requires AllSorted(runs) && Sorted(s) && multiset(s) == Bag(runs)
    ensures MergeAll(runs) == s
  {
    MergeAllSorted(runs);
    MergeAllRows(runs);
    SortedUnique(MergeAll(runs), s);
  }

  // ---------------------------------------------------------------------
  // Bags of runs
  // ---------------------------------------------------------------------

  lemma {:induction false} BagAppend(a: seq<seq<int>>, b: seq<seq<int>>)
    ensures Bag(a + b) == Bag(a) + Bag(b)
  {
    if a == [] {
      assert a + b == b;
    } else {
      assert (a + b)[1..] == a[1..] + b;
      BagAppend(a[1..], b);
    }
  }

  lemma AllSortedAppend(a: seq<seq<int>>, b: seq<seq<int>>)
    requires AllSorted(a) && AllSorted(b)
    ensures AllSorted(a + b)
  {
    forall i | 0 <= i < |a + b| ensures Sorted((a + b)[i]) {
      if i >= |a| { assert (a + b)[i] == b[i - |a|]; }
    }
  }

  /** Replacing one run of a buffer changes its rows by that run only. */
  lemma {:induction false} BagUpdate(runs: seq<seq<int>>, k: nat, r: seq<int>)
    requires k < |runs|
    ensures Bag(runs[k := r]) + multiset(runs[k]) == Bag(runs) + multiset(r)
  {
    if k > 0 {
      var u, tail := runs[k := r], runs[1..];
      assert u[0] == runs[0] && u[1..] == tail[k - 1 := r] && tail[k - 1] == runs[k];
      BagUpdate(tail, k - 1, r);
      calc {
        Bag(u) + multiset(runs[k]);
        multiset(runs[0]) + Bag(tail[k - 1 := r]) + multiset(tail[k - 1]);
        multiset(runs[0]) + (Bag(tail[k - 1 := r]) + multiset(tail[k - 1]));
        multiset(runs[0]) + (Bag(tail) + multiset(r));
        Bag(runs) + multiset(r);
      }
    } else {
      assert runs[k := r][1..] == runs[1..];
    }
  }

  /** Taking the first row off one run removes exactly that row from the buffer. */
  lemma BagPop(runs: seq<seq<int>>, k: nat)
    requires k < |runs| && runs[k] != []
    ensures Bag(runs[k := runs[k][1..]]) + multiset{runs[k][0]} == Bag(runs)
  {
    var r := runs[k][1..];
    BagUpdate(runs, k, r);
    assert runs[k] == [runs[k][0]] + r;
    assert multiset(runs[k]) == multiset{runs[k][0]} + multiset(r);
    forall x ensures (Bag(runs[k := r]) + multiset{runs[k][0]})[x] == Bag(runs)[x] {
      assert (Bag(runs[k := r]) + multiset(runs[k]))[x] == (Bag(runs) + multiset(r))[x];
    }
  }

  /** A lower bound on every row of every run bounds the buffer's rows. */
  lemma {:induction false} AllAtLeastBag(b: int, runs: seq<seq<int>>)
    requires AllAtLeast(b, runs)
    ensures forall x | x in Bag(runs) :: b <= x
  {
    if runs != [] {
      assert AllAtLeast(b, runs[1..]) by {
        forall i, j | 0 <= i < |runs[1..]| && 0 <= j < |runs[1..][i]|
          ensures b <= runs[1..][i][j]
        {
          assert runs[1..][i] == runs[i + 1];
        }
      }
      AllAtLeastBag(b, runs[1..]);
      forall x | x in multiset(runs[0]) ensures b <= x {
        var j :| 0 <= j < |runs[0]| && runs[0][j] == x;
      }
    }
  }

  /** A buffer that holds no rows merges to the empty run. */
  lemma EmptyBagMergesToNothing(runs: seq<seq<int>>)
    requires Bag(runs) == multiset{}
    ensures MergeAll(runs) == []
  {
    MergeAllRows(runs);
    assert |MergeAll(runs)| == |multiset(MergeAll(runs))| == 0;
  }

  // ---------------------------------------------------------------------
  // Prefixes and merging
  // ---------------------------------------------------------------------

  lemma PrefixCons(n: nat, h: int, t: seq<int>)
    requires n > 0
    ensures Prefix(n, [h] + t) == [h] + Prefix(n - 1, t)
  {
  }

  lemma PrefixPrefix(m: nat, n: nat, s: seq<int>)
    requires m <= n
    ensures Prefix(m, Prefix(n, s)) == Prefix(m, s)
  {
  }

  /**
   * Only the first `n` rows of a run can reach the first `n` rows of a
   * merge: cutting the run to `n` rows before merging does not change the
   * first `n` rows merged. This is what makes an early cut to the limit safe.
   */
  lemma {:induction false} MergePrefix(n: nat, a: seq<int>, b: seq<int>)
    ensures Prefix(n, Merge(Prefix(n, a), b)) == Prefix(n, Merge(a, b))
    decreases |a| + |b|
  {
    if n == 0 || a == [] {
    } else if b == [] {
      PrefixPrefix(n, n, a);
    } else {
      var pa := Prefix(n, a);
      assert pa[0] == a[0] && pa[1..] == Prefix(n - 1, a[1..]);
      if a[0] <= b[0] {
        calc {
          Prefix(n, Merge(pa, b));
          Prefix(n, [a[0]] + Merge(Prefix(n - 1, a[1..]), b));
          { PrefixCons(n, a[0], Merge(Prefix(n - 1, a[1..]), b)); }
          [a[0]] + Prefix(n - 1, Merge(Prefix(n - 1, a[1..]), b));
          { MergePrefix(n - 1, a[1..], b); }
          [a[0]] + Prefix(n - 1, Merge(a[1..], b));
          { PrefixCons(n, a[0], Merge(a[1..], b)); }
          Prefix(n, Merge(a, b));
        }
      } else {
        calc {
          Prefix(n, Merge(pa, b));
          Prefix(n, [b[0]] + Merge(pa, b[1..]));
          { PrefixCons(n, b[0], Merge(pa, b[1..])); }
          [b[0]] + Prefix(n - 1, Merge(pa, b[1..]));
          { PrefixPrefix(n - 1, n, Merge(pa, b[1..])); }
          [b[0]] + Prefix(n - 1, Prefix(n, Merge(pa, b[1..])));
          { MergePrefix(n, a, b[1..]); }
          [b[0]] + Prefix(n - 1, Prefix(n, Merge(a, b[1..])));
          { PrefixPrefix(n - 1, n, Merge(a, b[1..])); }
          [b[0]] + Prefix(n - 1, Merge(a, b[1..]));
          { PrefixCons(n, b[0], Merge(a, b[1..])); }
          Prefix(n, Merge(a, b));
        }
      }
    }
  }

  // ---------------------------------------------------------------------
  // What the operator promises
  // ---------------------------------------------------------------------

  /** The output is globally sorted, given that every input run is sorted. */
  lemma SortedOutputSorted(limit: nat, runs: seq<seq<int>>)
    requires AllSorted(runs)
    ensures Sorted(SortedOutput(limit, runs))
  {
    MergeAllSorted(runs);
  }

  /** Without a limit the output holds exactly the input rows: nothing is dropped. */
  lemma SortedOutputNoLimit(runs: seq<seq<int>>)
    ensures multiset(SortedOutput(0, runs)) == Bag(runs)
    ensures |SortedOutput(0, runs)| == TotalRows(runs)
  {
    MergeAllRows(runs);
  }

  /** With a limit the output has `min(limit, total rows)` rows. */
  lemma SortedOutputLength(limit: nat, runs: seq<seq<int>>)
    requires limit != 0
    ensures |SortedOutput(limit, runs)| == Min(limit, TotalRows(runs))
  {
    MergeAllRows(runs);
  }

  /**
   * The output is the first `limit` rows (all rows for limit 0) of THE fully
   * sorted input: of any sorted sequence holding exactly the input rows.
   */
  lemma SortedOutputIsPrefixOfSorted(limit: nat, runs: seq<seq<int>>, sorted: seq<int>)
    requires AllSorted(runs)
    requires Sorted(sorted) && multiset(sorted) == Bag(runs)
    ensures SortedOutput(limit, runs) == Take(limit, sorted)
  {
    MergeAllIsSortedBag(runs, sorted);
  }

  /**
   * The rows kept under a limit are the smallest ones: none of them is larger
   * than any row that was cut off, and every kept row is an input row.
   */
  lemma SortedOutputKeepsSmallest(limit: nat, runs: seq<seq<int>>)
    requires AllSorted(runs)
    ensures multiset(SortedOutput(limit, runs)) <= Bag(runs)
    ensures forall x, y | x in multiset(SortedOutput(limit, runs)) &&
                          y in Bag(runs) - multiset(SortedOutput(limit, runs)) :: x <= y
  {
    var m := MergeAll(runs);
    var out := SortedOutput(limit, runs);
    MergeAllSorted(runs);
    MergeAllRows(runs);
    var k := |out|;
    assert out == m[..k];
    CutRows(m, k);
    SortedSplit(m, k);
  }

  /** Cutting a run in two splits its rows between the two parts. */
  lemma CutRows(m: seq<int>, k: nat)
    requires k <= |m|
    ensures multiset(m[..k]) <= multiset(m)
    ensures multiset(m) - multiset(m[..k]) == multiset(m[k..])
  {
    assert m == m[..k] + m[k..];
    forall x ensures (multiset(m) - multiset(m[..k]))[x] == multiset(m[k..])[x] {
      assert multiset(m)[x] == multiset(m[..k])[x] + multiset(m[k..])[x];
    }
  }

  /** In a sorted run no row before a cut point is larger than a row after it. */
  lemma SortedSplit(m: seq<int>, k: nat)
    requires Sorted(m) && k <= |m|
    ensures forall x, y | x in multiset(m[..k]) && y in multiset(m[k..]) :: x <= y
  {
    forall x, y | x in multiset(m[..k]) && y in multiset(m[k..]) ensures x <= y {
      var i :| 0 <= i < k && m[..k][i] == x;
      var j :| 0 <= j < |m| - k && m[k..][j] == y;
      assert m[i] == x && m[k + j] == y;
    }
  }

  /** The output depends only on which rows were buffered, not on how they were chunked. */
  lemma SortedOutputDependsOnRowsOnly(limit: nat, a: seq<seq<int>>, b: seq<seq<int>>)
    requires AllSorted(a) && AllSorted(b) && Bag(a) == Bag(b)
    ensures SortedOutput(limit, a) == SortedOutput(limit, b)
  {
    MergeAllSorted(b);
    MergeAllRows(b);
    MergeAllIsSortedBag(a, MergeAll(b));
  }

  /**
   * Compaction is transparent: replacing a group `group` of runs by its own
   * sorted output under the same limit (what remerge and spilling do) does
   * not change the final output of the whole buffer.
   */
  lemma CompactGroup(limit: nat, others: seq<seq<int>>, group: seq<seq<int>>)
    requires AllSorted(others) && AllSorted(group)
    ensures SortedOutput(limit, others + [SortedOutput(limit, group)]) == SortedOutput(limit, others + group)
  {
    var mo, mg := MergeAll(others), MergeAll(group);
    var r := SortedOutput(limit, group);
    MergeAllSorted(group);
    assert Sorted(r);
    assert AllSorted([r]);
    MergeAllConcat(others, [r]);
    assert MergeAll([r]) == r by { assert [r][1..] == []; }
    MergeAllConcat(others, group);
    if limit != 0 {
      MergePrefix(limit, mg, mo);
    }
  }

  /** Merging two buffers one after the other is merging the two merges. */
  lemma MergeAllConcat(a: seq<seq<int>>, b: seq<seq<int>>)
    requires AllSorted(a) && AllSorted(b)
    ensures MergeAll(a + b) == Merge(MergeAll(b), MergeAll(a))
  {
    var ma, mb := MergeAll(a), MergeAll(b);
    MergeAllSorted(a);
    MergeAllSorted(b);
    MergeAllRows(a);
    MergeAllRows(b);
    AllSortedAppend(a, b);
    BagAppend(a, b);
    MergeSorted(mb, ma);
    MergeRows(mb, ma);
    MergeAllIsSortedBag(a + b, Merge(mb, ma));
  }

  /**
   * Appending one run to two buffers with the same output keeps their
   * outputs equal: the output after an append depends on the buffer only
   * through its output.
   */
  lemma AppendRun(limit: nat, a: seq<seq<int>>, b: seq<seq<int>>, c: seq<int>)
    requires AllSorted(a) && AllSorted(b) && Sorted(c)
    requires SortedOutput(limit, a) == SortedOutput(limit, b)
    ensures SortedOutput(limit, a + [c]) == SortedOutput(limit, b + [c])
  {
    forall x: seq<seq<int>> | AllSorted(x)
      ensures SortedOutput(limit, x + [c]) == SortedOutput(limit, [c] + [SortedOutput(limit, x)])
    {
      CompactGroup(limit, [c], x);
      AllSortedAppend([c], x);
      AllSortedAppend(x, [c]);
      BagAppend([c], x);
      BagAppend(x, [c]);
      SortedOutputDependsOnRowsOnly(limit, x + [c], [c] + x);
    }
  }
}
