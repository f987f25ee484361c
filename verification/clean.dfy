/** clean_nblocks, the last pass of the column detector in
    scripts/extract_annotations.py: duplicate removal, then the repair that
    sorts each run of boxes with nearly the same bottom by left edge. */
module CleanBlocks {
  import opened Wrappers
  import opened Geometry
  import opened Sorting

  /** The one way column_boxes fails: clean_nblocks reads nblocks[0] of an emptied list. */
  datatype ColumnError = IndexError

  /** Boxes of one run are sorted by left edge. */
  function X0Key(b: IRect): SortKey { SortKey(b.x0, 0, 0) }

  /** The duplicate-removal loop of clean_nblocks from index i down to 0; at
      i == 0 the predecessor is nblocks[-1], the last item. */
  function DelDupsFrom(s: seq<IRect>, i: int): (r: seq<IRect>)
    requires -1 <= i < |s|
    decreases i + 1
  {
    if i < 0 then s
    else
      var prev := if i >= 1 then s[i - 1] else s[|s| - 1];
      DelDupsFrom(if prev == s[i] then s[..i] + s[i + 1..] else s, i - 1)
  }

  /** s with every item equal to its predecessor removed. */
  function Compress(s: seq<IRect>): (r: seq<IRect>)
    ensures |r| <= |s| && (s != [] ==> r != [] && r[0] == s[0] && r[|r| - 1] == s[|s| - 1])
  {
    if |s| <= 1 then s
    else
      var c := Compress(s[..|s| - 1]);
      if s[|s| - 2] == s[|s| - 1] then c else c + [s[|s| - 1]]
  }

  /** No two neighbours of a compressed list are equal. */
  lemma {:induction false} CompressNoRepeats(s: seq<IRect>)
    ensures forall k :: 0 <= k < |Compress(s)| - 1 ==> Compress(s)[k] != Compress(s)[k + 1]
  {
    if |s| > 1 {
      var init := s[..|s| - 1];
      CompressNoRepeats(init);
      var c := Compress(init);
      if s[|s| - 2] != s[|s| - 1] {
        assert c[|c| - 1] == init[|init| - 1] == s[|s| - 2];
        var r := c + [s[|s| - 1]];
        forall k | 0 <= k < |r| - 1
          ensures r[k] != r[k + 1]
        {
          if k < |c| - 1 {
            assert r[k] == c[k] && r[k + 1] == c[k + 1];
          }
        }
      }
    }
  }

  /** Compressing keeps the same boxes. */
  lemma {:induction false} CompressSameBoxes(s: seq<IRect>)
    ensures forall x :: x in s <==> x in Compress(s)
  {
    if |s| > 1 {
      var init := s[..|s| - 1];
      CompressSameBoxes(init);
      assert forall x :: x in s <==> x in init || x == s[|s| - 1] by {
        assert s == init + [s[|s| - 1]];
      }
    }
  }

  /** Compress removes exactly the repetitions: no two neighbours are equal
      afterwards, and the same boxes occur. */
  lemma CompressSpec(s: seq<IRect>)
    ensures forall k :: 0 <= k < |Compress(s)| - 1 ==> Compress(s)[k] != Compress(s)[k + 1]
    ensures forall x :: x in s <==> x in Compress(s)
  {
    CompressNoRepeats(s);
    CompressSameBoxes(s);
  }

  /** A list of equal boxes compresses to one box. */
  lemma {:induction false} CompressAllEqual(s: seq<IRect>)
    requires |s| > 0 && forall k :: 0 <= k < |s| ==> s[k] == s[0]
    ensures |Compress(s)| == 1
  {
    if |s| > 1 {
      CompressAllEqual(s[..|s| - 1]);
    }
  }

  /** The quirk at i == 0: the first item goes when it equals the last one. */
  function DropFirstIfEqualsLast(c: seq<IRect>): seq<IRect>
    requires |c| > 0
  {
    if c[0] == c[|c| - 1] then c[1..] else c
  }

  /** Compress over one more item. */
  lemma CompressSnoc(s: seq<IRect>, i: nat)
    requires 0 < i < |s|
    ensures Compress(s[..i + 1]) == if s[i - 1] == s[i] then Compress(s[..i]) else Compress(s[..i]) + [s[i]]
  {
    var pre := s[..i + 1];
    assert pre[..i] == s[..i];
  }

  /** Deleting s[i] when it repeats s[i - 1] turns the compressed prefix
      s[..i + 1] into the compressed prefix of one item less. */
  lemma DeleteKeepsCompress(s: seq<IRect>, i: nat)
    requires 0 < i < |s|
    ensures var s' := if s[i - 1] == s[i] then s[..i] + s[i + 1..] else s;
      i < |s'| + 1 && Compress(s'[..i]) + s'[i..] == Compress(s[..i + 1]) + s[i + 1..]
  {
    var s' := if s[i - 1] == s[i] then s[..i] + s[i + 1..] else s;
    assert s'[..i] == s[..i];
    CompressSnoc(s, i);
    if s[i - 1] == s[i] {
      assert s'[i..] == s[i + 1..];
    } else {
      assert s'[i..] == [s[i]] + s[i + 1..];
      Concat3(Compress(s[..i]), [s[i]], s[i + 1..]);
    }
  }

  /** One iteration of the duplicate-removal loop at an index i > 0. */
  lemma DelDupsFromStep(s: seq<IRect>, i: nat)
    requires 0 < i < |s|
    ensures DelDupsFrom(s, i) == DelDupsFrom(if s[i - 1] == s[i] then s[..i] + s[i + 1..] else s, i - 1)
  {
  }

  /** Running the loop from index i equals running it from 0 on s with the
      prefix s[..i + 1] compressed. */
  lemma {:induction false} DelDupsFromIsCompress(s: seq<IRect>, i: nat)
    requires i < |s|
    ensures DelDupsFrom(s, i) == DelDupsFrom(Compress(s[..i + 1]) + s[i + 1..], 0)
    decreases i
  {
    if i == 0 {
      assert Compress(s[..1]) == s[..1];
      assert s[..1] + s[1..] == s;
    } else {
      var s' := if s[i - 1] == s[i] then s[..i] + s[i + 1..] else s;
      DelDupsFromStep(s, i);
      DeleteKeepsCompress(s, i);
      DelDupsFromIsCompress(s', i - 1);
      var t := Compress(s'[..i]) + s'[i..];
      assert DelDupsFrom(s, i) == DelDupsFrom(t, 0);
      assert t == Compress(s[..i + 1]) + s[i + 1..];
    }
  }

  /** The duplicate-removal loop removes each item equal to its predecessor,
      then also drops the first item when it equals the last one. */
  lemma DelDupsSpec(s: seq<IRect>)
    requires |s| >= 2
    ensures DelDupsFrom(s, |s| - 1) == DropFirstIfEqualsLast(Compress(s))
  {
    var c := Compress(s);
    DelDupsFromIsCompress(s, |s| - 1);
    assert s[..|s|] == s;
    assert c + s[|s|..] == c;
    assert DelDupsFrom(c, 0) == DelDupsFrom(if c[|c| - 1] == c[0] then c[..0] + c[1..] else c, -1);
    assert c[..0] + c[1..] == c[1..];
  }

  /** Absolute value of an integer difference. */
  function Abs(x: int): nat { if x < 0 then -x else x }

  /** The end of the run starting at i0: the first index from i on whose
      bottom is more than 10 away from the run's first bottom. */
  function RunEnd(s: seq<IRect>, i0: nat, i: nat): (e: nat)
    requires i0 < i <= |s|
    ensures i <= e <= |s|
    decreases |s| - i
  {
    if i == |s| || Abs(s[i].y1 - s[i0].y1) > 10 then i else RunEnd(s, i0, i + 1)
  }

  /** A run holds the boxes whose bottom is within 10 of the run's first
      bottom, and stops at the first box that is not. */
  lemma {:induction false} RunEndSpec(s: seq<IRect>, i0: nat, i: nat)
    requires i0 < i <= |s|
    ensures forall k :: i <= k < RunEnd(s, i0, i) ==> Abs(s[k].y1 - s[i0].y1) <= 10
    ensures RunEnd(s, i0, i) < |s| ==> Abs(s[RunEnd(s, i0, i)].y1 - s[i0].y1) > 10
    decreases |s| - i
  {
    if i < |s| && Abs(s[i].y1 - s[i0].y1) <= 10 {
      RunEndSpec(s, i0, i + 1);
    }
  }

  /** sorted(run, key=lambda b: b.x0): the stable sort of one run by left edge. */
  function SortRun(run: seq<IRect>): (r: seq<IRect>)
    ensures |r| == |run|
  {
    SortBy(run, X0Key)
  }

  /** A sorted run is in ascending order of left edge and holds the same boxes. */
  lemma SortRunSpec(run: seq<IRect>)
    ensures SortedBy(SortRun(run), X0Key) && multiset(SortRun(run)) == multiset(run)
  {
    SortBySpec(run, X0Key);
  }

  /** A run of one box is already sorted. */
  lemma SortRunSingle(b: IRect)
    ensures SortRun([b]) == [b]
  {
    assert [b][..0] == [];
  }

  /** The run repair of clean_nblocks from run start i0, each run put through
      sort (the repair applies SortRun; the reasoning about runs does not
      depend on how a run is sorted). */
  function SortRunsFrom(s: seq<IRect>, i0: nat, sort: seq<IRect> -> seq<IRect>): seq<IRect>
    requires i0 <= |s|
    decreases |s| - i0
  {
    if i0 == |s| then []
    else
      var e := RunEnd(s, i0, i0 + 1);
      sort(s[i0..e]) + SortRunsFrom(s, e, sort)
  }

  /** The run repair starts with the first run, sorted by left edge: the same
      boxes, in ascending order of x0. */
  lemma SortRunsHead(s: seq<IRect>, i0: nat)
    requires i0 < |s|
    ensures var e := RunEnd(s, i0, i0 + 1);
      SortedBy(SortRunsFrom(s, i0, SortRun)[..e - i0], X0Key) &&
      multiset(SortRunsFrom(s, i0, SortRun)[..e - i0]) == multiset(s[i0..e])
  {
    var e := RunEnd(s, i0, i0 + 1);
    var run := SortRun(s[i0..e]);
    SortRunSpec(s[i0..e]);
    assert (run + SortRunsFrom(s, e, SortRun))[..e - i0] == run;
  }

  /** Sorting a run in front of a permutation of the rest permutes the whole suffix. */
  lemma SortedRunPermutes(s: seq<IRect>, i0: nat, e: nat, rest: seq<IRect>)
    requires i0 <= e <= |s| && multiset(rest) == multiset(s[e..])
    ensures multiset(SortRun(s[i0..e]) + rest) == multiset(s[i0..])
  {
    SortRunSpec(s[i0..e]);
    assert s[i0..] == s[i0..e] + s[e..];
  }

  /** The run repair is a permutation: each run is replaced by a sorted copy of itself. */
  lemma {:induction false} SortRunsPermutes(s: seq<IRect>, i0: nat)
    requires i0 <= |s|
    ensures multiset(SortRunsFrom(s, i0, SortRun)) == multiset(s[i0..])
    ensures |SortRunsFrom(s, i0, SortRun)| == |s| - i0
    decreases |s| - i0
  {
    if i0 < |s| {
      var e := RunEnd(s, i0, i0 + 1);
      SortRunsPermutes(s, e);
      SortedRunPermutes(s, i0, e, SortRunsFrom(s, e, SortRun));
    }
  }

  /** clean_nblocks; Err when the duplicate removal empties the list and nblocks[0] fails. */
  function Clean(s: seq<IRect>): Result<seq<IRect>, ColumnError>
  {
    if |s| < 2 then Ok(s)
    else
      var d := DelDupsFrom(s, |s| - 1);
      if d == [] then Err(IndexError) else Ok(SortRunsFrom(d, 0, SortRun))
  }

  /** A run scanned up to i that fails the bottom test at i ends at i. */
  lemma {:induction false} RunEndsAt(s: seq<IRect>, i0: nat, j: nat, i: nat)
    requires i0 < j <= i <= |s|
    requires forall k :: i0 < k < i ==> Abs(s[k].y1 - s[i0].y1) <= 10
    requires i == |s| || Abs(s[i].y1 - s[i0].y1) > 10
    ensures RunEnd(s, i0, j) == i
    decreases i - j
  {
    if j < i {
      RunEndsAt(s, i0, j + 1, i);
    }
  }

  /** The run repair as the loop scans it: the current run started at i0 and
      box i is the next one compared with the run's first bottom. */
  function ScanRuns(s: seq<IRect>, i0: nat, i: nat, sort: seq<IRect> -> seq<IRect>): seq<IRect>
    requires i0 < i <= |s|
    decreases |s| - i
  {
    if i == |s| then sort(s[i0..i])
    else if Abs(s[i].y1 - s[i0].y1) > 10 then sort(s[i0..i]) + ScanRuns(s, i, i + 1, sort)
    else ScanRuns(s, i0, i + 1, sort)
  }

  /** Scanning box by box finds the same runs as RunEnd. */
  lemma {:induction false} ScanRunsIsSortRuns(s: seq<IRect>, i0: nat, i: nat, sort: seq<IRect> -> seq<IRect>)
    requires i0 < i <= |s|
    requires forall k :: i0 < k < i ==> Abs(s[k].y1 - s[i0].y1) <= 10
    ensures ScanRuns(s, i0, i, sort) == SortRunsFrom(s, i0, sort)
    decreases |s| - i
  {
    if i == |s| {
      RunEndsAt(s, i0, i0 + 1, i);
      assert SortRunsFrom(s, i, sort) == [];
      assert sort(s[i0..i]) + [] == sort(s[i0..i]);
    } else if Abs(s[i].y1 - s[i0].y1) > 10 {
      RunEndsAt(s, i0, i0 + 1, i);
      ScanRunsIsSortRuns(s, i, i + 1, sort);
    } else {
      ScanRunsIsSortRuns(s, i0, i + 1, sort);
    }
  }

  /** nblocks[i0:e] = sorted(nblocks[i0:e], key=lambda b: b.x0), with the run sort as a parameter. */
  function SortSlice(s: seq<IRect>, i0: nat, e: nat, sort: seq<IRect> -> seq<IRect>): seq<IRect>
    requires i0 <= e <= |s|
  {
    s[..i0] + sort(s[i0..e]) + s[e..]
  }

  lemma Concat3(a: seq<IRect>, b: seq<IRect>, c: seq<IRect>)
    ensures (a + b) + c == a + (b + c)
  {
  }

  /** Closing the pending run [i0, i) of cur, whose boxes from i0 on are still
      those of s: the slice assignment (or, for a run of one box that sort
      keeps, no assignment) makes cur[..i] the finished prefix followed by the
      sorted run, and leaves the boxes from i on alone. */
  lemma FlushRun(cur: seq<IRect>, s: seq<IRect>, i0: nat, i: nat, sort: seq<IRect> -> seq<IRect>)
    requires |cur| == |s| && i0 < i <= |s| && cur[i0..] == s[i0..]
    requires |sort(s[i0..i])| == i - i0
    ensures var r := SortSlice(cur, i0, i, sort);
      |r| == |s| && r[..i] == cur[..i0] + sort(s[i0..i]) && r[i..] == s[i..]
    ensures i == i0 + 1 && sort([s[i0]]) == [s[i0]] ==> cur[..i] == cur[..i0] + sort(s[i0..i])
  {
    assert cur[i0..i] == s[i0..i] && cur[i..] == s[i..] by {
      assert cur[i0..i] == cur[i0..][..i - i0] && s[i0..i] == s[i0..][..i - i0];
      assert cur[i..] == cur[i0..][i - i0..] && s[i..] == s[i0..][i - i0..];
    }
    var r := SortSlice(cur, i0, i, sort);
    var run := sort(s[i0..i]);
    assert r[..i] == cur[..i0] + run;
    assert r[i..] == cur[i..];
    if i == i0 + 1 && sort([s[i0]]) == [s[i0]] {
      assert s[i0..i] == [s[i0]];
      assert cur[..i] == cur[..i0] + cur[i0..i];
    }
  }

  /** At a run boundary the finished prefix grows by the sorted run and the
      scan restarts at i. */
  lemma CloseRun(pre: seq<IRect>, s: seq<IRect>, i0: nat, i: nat, sort: seq<IRect> -> seq<IRect>, total: seq<IRect>)
    requires i0 < i < |s| && Abs(s[i].y1 - s[i0].y1) > 10
    requires pre + ScanRuns(s, i0, i, sort) == total
    ensures (pre + sort(s[i0..i])) + ScanRuns(s, i, i + 1, sort) == total
  {
    Concat3(pre, sort(s[i0..i]), ScanRuns(s, i, i + 1, sort));
  }

  /** At the end of the list the finished prefix and the sorted last run are the whole repair. */
  lemma FinishRuns(pre: seq<IRect>, s: seq<IRect>, i0: nat, sort: seq<IRect> -> seq<IRect>, total: seq<IRect>)
    requires i0 < |s|
    requires pre + ScanRuns(s, i0, |s|, sort) == total
    ensures pre + sort(s[i0..|s|]) == total
  {
  }

  /** What the run-repair loop keeps: the pending run started at i0 (whose
      first bottom is y1) and is untouched from i0 on, and the finished
      prefix followed by the rest of the scan is the whole repair. */
  ghost predicate RunLoop(cur: seq<IRect>, s: seq<IRect>, i0: nat, i: nat, y1: int,
                          sort: seq<IRect> -> seq<IRect>, total: seq<IRect>)
  {
    |cur| == |s| && i0 < i <= |s| && y1 == s[i0].y1 && cur[i0..] == s[i0..] &&
    cur[..i0] + ScanRuns(s, i0, i, sort) == total
  }

  /** One comparison of the run-repair loop: box i either extends the
      pending run or closes it, which sorts the run in place and starts a
      new one at i. */
  method RunStep(cur: seq<IRect>, s: seq<IRect>, i0: nat, i1: int, i: nat, y1: int,
                 sort: seq<IRect> -> seq<IRect>, ghost total: seq<IRect>)
    returns (cur': seq<IRect>, i0': nat, y1': int)
    requires i < |s| && RunLoop(cur, s, i0, i, y1, sort, total)
    requires i1 == i - 1 || (i == 1 && i1 == -1)
    requires |sort(s[i0..i])| == i - i0 && sort([s[i0]]) == [s[i0]]
    ensures RunLoop(cur', s, i0', i + 1, y1', sort, total)
  {
    cur', i0', y1' := cur, i0, y1;
    var b1 := cur[i];
    assert b1 == s[i] by {
      assert cur[i] == cur[i0..][i - i0];
    }
    if Abs(b1.y1 - y1) > 10 {
      FlushRun(cur, s, i0, i, sort);
      CloseRun(cur[..i0], s, i0, i, sort, total);
      if i1 > i0 {
        cur' := SortSlice(cur, i0, i1 + 1, sort);
      }
      y1' := b1.y1;
      i0' := i;
    } else {
      assert ScanRuns(s, i0, i, sort) == ScanRuns(s, i0, i + 1, sort);
    }
  }

  /** After the scan: the last pending run is sorted in place unless it is
      a single box, which completes the repair. */
  method LastRun(cur: seq<IRect>, s: seq<IRect>, i0: nat, i1: int,
                 sort: seq<IRect> -> seq<IRect>, ghost total: seq<IRect>)
    returns (cur': seq<IRect>)
    requires |cur| == |s| && i0 < |s| && cur[i0..] == s[i0..]
    requires cur[..i0] + ScanRuns(s, i0, |s|, sort) == total
    requires i1 == |s| - 1 || (|s| == 1 && i1 == -1)
    requires |sort(s[i0..|s|])| == |s| - i0 && sort([s[i0]]) == [s[i0]]
    ensures cur' == total
  {
    if i1 > i0 {
      cur' := SortSlice(cur, i0, i1 + 1, sort);
      SortedLastRun(cur, s, i0, sort, total);
    } else {
      cur' := cur;
      SingleLastRun(cur, s, i0, sort, total);
    }
  }

  /** Sorting the last run in place completes the repair. */
  lemma SortedLastRun(cur: seq<IRect>, s: seq<IRect>, i0: nat, sort: seq<IRect> -> seq<IRect>, total: seq<IRect>)
    requires |cur| == |s| && i0 < |s| && cur[i0..] == s[i0..]
    requires cur[..i0] + ScanRuns(s, i0, |s|, sort) == total
    requires |sort(s[i0..|s|])| == |s| - i0
    ensures SortSlice(cur, i0, |s|, sort) == total
  {
    FlushRun(cur, s, i0, |s|, sort);
    FinishRuns(cur[..i0], s, i0, sort, total);
    var r := SortSlice(cur, i0, |s|, sort);
    assert r[..|s|] == r;
  }

  /** A last run of one box is already in place. */
  lemma SingleLastRun(cur: seq<IRect>, s: seq<IRect>, i0: nat, sort: seq<IRect> -> seq<IRect>, total: seq<IRect>)
    requires |cur| == |s| && i0 + 1 == |s| && cur[i0..] == s[i0..]
    requires cur[..i0] + ScanRuns(s, i0, |s|, sort) == total
    requires |sort(s[i0..|s|])| == 1 && sort([s[i0]]) == [s[i0]]
    ensures cur == total
  {
    FlushRun(cur, s, i0, |s|, sort);
    FinishRuns(cur[..i0], s, i0, sort, total);
    assert cur[..|s|] == cur;
  }

  /** The run-repair loop of clean_nblocks, with its slice assignments; runs
      of one box are left alone, which is right for any sort that keeps them. */
  method SortRuns(s: seq<IRect>, sort: seq<IRect> -> seq<IRect>) returns (cur: seq<IRect>)
    requires |s| > 0
    requires forall run :: |sort(run)| == |run|
    requires forall b :: sort([b]) == [b]
    ensures cur == SortRunsFrom(s, 0, sort)
  {
    cur := s;
    var y1 := cur[0].y1;
    var i0: nat := 0;
    var i1: int := -1;
    var i: nat := 1;
    ghost var total := ScanRuns(s, 0, 1, sort);
    assert cur[..0] + total == total;
    while i < |cur|
      invariant RunLoop(cur, s, i0, i, y1, sort, total)
      invariant i1 == i - 1 || (i == 1 && i1 == -1)
    {
      assert |sort(s[i0..i])| == i - i0 && sort([s[i0]]) == [s[i0]];
      cur, i0, y1 := RunStep(cur, s, i0, i1, i, y1, sort, total);
      i1 := i;
      i := i + 1;
    }
    assert |sort(s[i0..i])| == i - i0 && sort([s[i0]]) == [s[i0]];
    cur := LastRun(cur, s, i0, i1, sort, total);
    ScanRunsIsSortRuns(s, 0, 1, sort);
  }

  /** The duplicate-removal loop of clean_nblocks, deleting with del from the
      last index down to 0. */
  method DeleteDuplicates(nblocks: seq<IRect>) returns (cur: seq<IRect>)
    requires |nblocks| >= 2
    ensures cur == DelDupsFrom(nblocks, |nblocks| - 1)
  {
    cur := nblocks;
    var i := |cur| - 1;
    while i >= 0
      invariant -1 <= i < |cur|
      invariant DelDupsFrom(cur, i) == DelDupsFrom(nblocks, |nblocks| - 1)
      decreases i + 1
    {
      var bb1 := cur[i];
      var bb0 := if i >= 1 then cur[i - 1] else cur[|cur| - 1];
      if bb0 == bb1 {
        cur := cur[..i] + cur[i + 1..];
      }
      i := i - 1;
    }
  }

  /** clean_nblocks: duplicate removal with del, then the run repair. */
  method CleanNBlocks(nblocks: seq<IRect>) returns (r: Result<seq<IRect>, ColumnError>)
    ensures r == Clean(nblocks)
  {
    if |nblocks| < 2 {
      return Ok(nblocks);
    }
    var cur := DeleteDuplicates(nblocks);
    if cur == [] {
      return Err(IndexError);
    }
    forall b | true
      ensures |SortRun([b])| == 1 && SortRun([b]) == [b]
    {
      SortRunSingle(b);
    }
    var sorted := SortRuns(cur, SortRun);
    r := Ok(sorted);
  }

  /** clean_nblocks fails exactly when there are two or more boxes and all are equal. */
  lemma CleanFailsIffAllEqual(s: seq<IRect>)
    ensures Clean(s).Err? <==> |s| >= 2 && forall k :: 0 <= k < |s| ==> s[k] == s[0]
  {
    if |s| >= 2 {
      DelDupsSpec(s);
      var c := Compress(s);
      if forall k :: 0 <= k < |s| ==> s[k] == s[0] {
        CompressAllEqual(s);
      } else {
        var k :| 0 <= k < |s| && s[k] != s[0];
        CompressSpec(s);
        assert s[k] in c;
        assert |c| >= 2;
      }
    }
  }

  /** clean_nblocks keeps every box that reaches it and adds none: short lists
      come back unchanged, and otherwise duplicates are dropped and runs reordered. */
  lemma CleanKeepsBoxes(s: seq<IRect>)
    requires Clean(s).Ok?
    ensures |s| < 2 ==> Clean(s).value == s
    ensures forall x :: x in s <==> x in Clean(s).value
  {
    if |s| >= 2 {
      DelDupsSpec(s);
      CompressSpec(s);
      var c := Compress(s);
      var d := DelDupsFrom(s, |s| - 1);
      assert d != [];
      assert forall x :: x in c <==> x in d by {
        if c[0] == c[|c| - 1] {
          assert |c| >= 2;
          assert c[|c| - 1] == d[|d| - 1];
          assert forall x :: x in c ==> x == c[0] || x in d;
        }
      }
      SortRunsPermutes(d, 0);
      assert d[0..] == d;
      assert forall x :: x in d <==> x in multiset(SortRunsFrom(d, 0, SortRun));
    }
  }
}
