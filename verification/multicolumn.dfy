/** Multi-column text detection (DocumentAnalyzer.check_multi_column_text in
    scripts/extract_annotations.py): run the column detector on every page
    and keep the neighbouring column boxes whose horizontal extents match a
    fixed two-column or three-column page template. */
module MultiColumn {
  import opened Wrappers
  import opened Geometry
  import opened CleanBlocks
  import opened Columns

  // ---------------------------------------------------------------------
  // The templates
  // ---------------------------------------------------------------------

  /** Two columns: left box from x 85..95 to 295..315, right box from
      305..315 to 510..530, tops less than 5 apart (all bounds strict). */
  predicate PairMatch(a: IRect, b: IRect)
  {
    85 < a.x0 < 95 && 295 < a.x1 < 315 &&
    305 < b.x0 < 315 && 510 < b.x1 < 530 &&
    Abs(b.y0 - a.y0) < 5
  }

  /** The row test of the three-column template: the absolute value of the
      LARGEST of the three top differences is below 5. */
  predicate TripleRows(a: IRect, b: IRect, c: IRect)
  {
    Abs(Max(Max(b.y0 - a.y0, c.y0 - a.y0), b.y0 - c.y0)) < 5
  }

  /** Three columns: x 85..95 to 210..230, then 230..250 to 370..385, then
      370..390 to 505..530 (all bounds strict), and the row test. */
  predicate TripleMatch(a: IRect, b: IRect, c: IRect)
  {
    85 < a.x0 < 95 && 210 < a.x1 < 230 &&
    230 < b.x0 < 250 && 370 < b.x1 < 385 &&
    370 < c.x0 < 390 && 505 < c.x1 < 530 &&
    TripleRows(a, b, c)
  }

  /** What one step of the scan appends at position i: the pair, then the triple. */
  function MatchesAt(s: seq<IRect>, i: nat): (r: seq<IRect>)
    requires i + 1 < |s|
  {
    (if PairMatch(s[i], s[i + 1]) then [s[i], s[i + 1]] else []) +
    (if i + 2 < |s| && TripleMatch(s[i], s[i + 1], s[i + 2]) then [s[i], s[i + 1], s[i + 2]] else [])
  }

  /** The boxes collected by the first n steps of the scan. */
  function MatchesUpTo(s: seq<IRect>, n: nat): seq<IRect>
    requires n < |s|
  {
    if n == 0 then [] else MatchesUpTo(s, n - 1) + MatchesAt(s, n - 1)
  }

  /** The boxes a page contributes: the scan over rect in range(len(bboxes) - 1). */
  function Detect(s: seq<IRect>): seq<IRect>
  {
    if |s| == 0 then [] else MatchesUpTo(s, |s| - 1)
  }

  /** The scan of one page's column boxes, step by step. */
  method DetectColumns(s: seq<IRect>) returns (p: seq<IRect>)
    ensures p == Detect(s)
  {
    p := [];
    if |s| == 0 {
      return;
    }
    var rect := 0;
    while rect < |s| - 1
      invariant rect <= |s| - 1
      invariant p == MatchesUpTo(s, rect)
    {
      if PairMatch(s[rect], s[rect + 1]) {
        p := p + [s[rect], s[rect + 1]];
      }
      if rect < |s| - 2 {
        if TripleMatch(s[rect], s[rect + 1], s[rect + 2]) {
          p := p + [s[rect], s[rect + 1], s[rect + 2]];
        }
      }
      rect := rect + 1;
    }
  }

  // ---------------------------------------------------------------------
  // Properties of the scan
  // ---------------------------------------------------------------------

  /** The scan only reports boxes of its input. */
  lemma {:induction false} MatchesUpToFromInput(s: seq<IRect>, n: nat)
    requires n < |s|
    ensures forall x :: x in MatchesUpTo(s, n) ==> x in s
  {
    if n > 0 {
      MatchesUpToFromInput(s, n - 1);
      assert forall x :: x in MatchesAt(s, n - 1) ==> x in s;
    }
  }

  /** Step i matches the two-column or the three-column template. */
  predicate StepMatches(s: seq<IRect>, i: nat)
    requires i + 1 < |s|
  {
    PairMatch(s[i], s[i + 1]) || (i + 2 < |s| && TripleMatch(s[i], s[i + 1], s[i + 2]))
  }

  /** The first n steps report nothing exactly when no step below n matches a template. */
  lemma {:induction false} MatchesUpToEmpty(s: seq<IRect>, n: nat)
    requires n < |s|
    ensures MatchesUpTo(s, n) == [] <==> forall i :: 0 <= i < n ==> !StepMatches(s, i)
  {
    if n > 0 {
      MatchesUpToEmpty(s, n - 1);
      assert MatchesAt(s, n - 1) == [] <==> !StepMatches(s, n - 1);
    }
  }

  /** Detect reports only input boxes. */
  lemma DetectFromInput(s: seq<IRect>)
    ensures forall x :: x in Detect(s) ==> x in s
  {
    if |s| > 0 {
      MatchesUpToFromInput(s, |s| - 1);
    }
  }

  /** Detect reports something exactly when some neighbouring boxes match
      the two-column or the three-column template. */
  lemma DetectEmptyIff(s: seq<IRect>)
    ensures Detect(s) == [] <==> forall i :: 0 <= i < |s| - 1 ==> !StepMatches(s, i)
  {
    if |s| > 0 {
      MatchesUpToEmpty(s, |s| - 1);
      assert Detect(s) == MatchesUpTo(s, |s| - 1);
    }
  }

  /** What a step reports stays in the scan's result from then on. */
  lemma {:induction false} StepReportedUpTo(s: seq<IRect>, n: nat, i: nat)
    requires i < n < |s|
    ensures forall x :: x in MatchesAt(s, i) ==> x in MatchesUpTo(s, n)
    decreases n
  {
    if i < n - 1 {
      StepReportedUpTo(s, n - 1, i);
    }
    assert MatchesUpTo(s, n) == MatchesUpTo(s, n - 1) + MatchesAt(s, n - 1);
  }

  /** Both boxes of a neighbouring pair that matches the two-column template are reported. */
  lemma PairReported(s: seq<IRect>, i: nat)
    requires i + 1 < |s| && PairMatch(s[i], s[i + 1])
    ensures s[i] in Detect(s) && s[i + 1] in Detect(s)
  {
    assert s[i] in MatchesAt(s, i) && s[i + 1] in MatchesAt(s, i);
    StepReportedUpTo(s, |s| - 1, i);
  }

  /** All three boxes of neighbouring boxes that match the three-column template are reported. */
  lemma TripleReported(s: seq<IRect>, i: nat)
    requires i + 2 < |s| && TripleMatch(s[i], s[i + 1], s[i + 2])
    ensures s[i] in Detect(s) && s[i + 1] in Detect(s) && s[i + 2] in Detect(s)
  {
    var t := MatchesAt(s, i);
    assert t[|t| - 3] == s[i] && t[|t| - 2] == s[i + 1] && t[|t| - 1] == s[i + 2];
    StepReportedUpTo(s, |s| - 1, i);
  }

  /** Box x is a box of the pair at position i that matches the two-column
      template, or of the triple at i that matches the three-column one. */
  predicate ReportedAt(s: seq<IRect>, x: IRect, i: nat)
  {
    (i + 1 < |s| && PairMatch(s[i], s[i + 1]) && (x == s[i] || x == s[i + 1])) ||
    (i + 2 < |s| && TripleMatch(s[i], s[i + 1], s[i + 2]) && (x == s[i] || x == s[i + 1] || x == s[i + 2]))
  }

  /** Every box the first n steps report belongs to a step below n that matches a template. */
  lemma {:induction false} MatchesUpToFromMatch(s: seq<IRect>, n: nat, x: IRect)
    requires n < |s| && x in MatchesUpTo(s, n)
    ensures exists i :: 0 <= i < n && ReportedAt(s, x, i)
    decreases n
  {
    assert MatchesUpTo(s, n) == MatchesUpTo(s, n - 1) + MatchesAt(s, n - 1);
    if x in MatchesUpTo(s, n - 1) {
      MatchesUpToFromMatch(s, n - 1, x);
    } else {
      assert ReportedAt(s, x, n - 1);
    }
  }

  /** Every reported box is a box of a neighbouring pair or triple that
      matches its template. */
  lemma ReportedFromMatch(s: seq<IRect>, x: IRect)
    requires x in Detect(s)
    ensures exists i :: 0 <= i && ReportedAt(s, x, i)
  {
    assert |s| > 0 && Detect(s) == MatchesUpTo(s, |s| - 1);
    MatchesUpToFromMatch(s, |s| - 1, x);
  }

  /** A box is reported exactly when it belongs to a neighbouring pair or
      triple that matches its template. */
  lemma DetectIff(s: seq<IRect>, x: IRect)
    ensures x in Detect(s) <==> exists i :: 0 <= i && ReportedAt(s, x, i)
  {
    if x in Detect(s) {
      ReportedFromMatch(s, x);
    }
    if exists i :: 0 <= i && ReportedAt(s, x, i) {
      var i :| 0 <= i && ReportedAt(s, x, i);
      if i + 1 < |s| && PairMatch(s[i], s[i + 1]) && (x == s[i] || x == s[i + 1]) {
        PairReported(s, i);
      } else {
        TripleReported(s, i);
      }
    }
  }

  /** The three-column row test accepts a first column whose top is 100 below
      the tops of the other two: only the largest difference is bounded. */
  lemma TripleRowsIgnoresLowFirstColumn()
    ensures var a, b, c := IRect(90, 200, 220, 300), IRect(240, 100, 380, 300), IRect(380, 100, 520, 300);
      TripleMatch(a, b, c) && Abs(b.y0 - a.y0) == 100
  {
  }

  // ---------------------------------------------------------------------
  // check_multi_column_text over the document
  // ---------------------------------------------------------------------

  /** Every page gives the column detector a first line for each text block. */
  predicate PagesHaveLines(pages: seq<ColumnPage>)
  {
    forall k :: 0 <= k < |pages| ==> BlocksHaveLines(pages[k].blocks)
  }

  /** The column detector as check_multi_column_text calls it:
      column_boxes(page, footer_margin=50, no_image_text=True). */
  function PageColumns(p: ColumnPage): Result<seq<IRect>, ColumnError>
    requires BlocksHaveLines(p.blocks)
  {
    ColumnBoxesOf(p, true)
  }

  /** What one page contributes: the boxes the scan keeps from the column
      detector's answer, or the detector's error. */
  function PageHits(c: Result<seq<IRect>, ColumnError>): Result<seq<IRect>, ColumnError>
  {
    if c.Ok? then Ok(Detect(c.value)) else Err(c.error)
  }

  /** The detector accepts every page. */
  ghost predicate Accepts(detector: ColumnPage --> Result<seq<IRect>, ColumnError>, pages: seq<ColumnPage>)
  {
    forall k :: 0 <= k < |pages| ==> detector.requires(pages[k])
  }

  /** The contributions of the first n pages, in page order, for a given
      column detector (the document scan below does not depend on how the
      detector works). */
  ghost function PageResults(pages: seq<ColumnPage>, detector: ColumnPage --> Result<seq<IRect>, ColumnError>, n: nat): (r: seq<Result<seq<IRect>, ColumnError>>)
    requires n <= |pages| && Accepts(detector, pages)
    ensures |r| == n
  {
    if n == 0 then [] else PageResults(pages, detector, n - 1) + [PageHits(detector(pages[n - 1]))]
  }

  /** The result after the first n pages, given each page's contribution: a
      page number maps to its boxes when there are any, and a failing page
      aborts the scan. */
  function MultiColumnsUpTo(hits: seq<Result<seq<IRect>, ColumnError>>, n: nat): Result<map<nat, seq<IRect>>, ColumnError>
    requires n <= |hits|
  {
    if n == 0 then Ok(map[])
    else
      var prev := MultiColumnsUpTo(hits, n - 1);
      if prev.Err? then prev
      else if hits[n - 1].Err? then Err(hits[n - 1].error)
      else if |hits[n - 1].value| > 0 then Ok(prev.value[n - 1 := hits[n - 1].value])
      else prev
  }

  /** The document scan with a given column detector. */
  ghost function MultiColumnsWith(pages: seq<ColumnPage>, detector: ColumnPage --> Result<seq<IRect>, ColumnError>): Result<map<nat, seq<IRect>>, ColumnError>
    requires Accepts(detector, pages)
  {
    MultiColumnsUpTo(PageResults(pages, detector, |pages|), |pages|)
  }

  /** check_multi_column_text on the whole document. */
  ghost function MultiColumnsOf(pages: seq<ColumnPage>): Result<map<nat, seq<IRect>>, ColumnError>
    requires PagesHaveLines(pages)
  {
    MultiColumnsWith(pages, PageColumns)
  }

  /** Once a page has failed, the whole scan has failed. */
  lemma {:induction false} MultiColumnsErrStays(hits: seq<Result<seq<IRect>, ColumnError>>, n: nat, m: nat)
    requires n <= m <= |hits|
    requires MultiColumnsUpTo(hits, n).Err?
    ensures MultiColumnsUpTo(hits, m) == MultiColumnsUpTo(hits, n)
    decreases m - n
  {
    if n < m {
      MultiColumnsErrStays(hits, n + 1, m);
    }
  }

  /** The result after n pages depends only on the first n contributions. */
  lemma {:induction false} MultiColumnsPrefix(hits: seq<Result<seq<IRect>, ColumnError>>, more: seq<Result<seq<IRect>, ColumnError>>, n: nat)
    requires n <= |hits|
    ensures MultiColumnsUpTo(hits + more, n) == MultiColumnsUpTo(hits, n)
  {
    if n > 0 {
      MultiColumnsPrefix(hits, more, n - 1);
      assert (hits + more)[n - 1] == hits[n - 1];
    }
  }

  /** One more page: its error aborts the scan, its boxes (if any) are
      recorded under its page number. */
  lemma MultiColumnsStep(hits: seq<Result<seq<IRect>, ColumnError>>, h: Result<seq<IRect>, ColumnError>, text: map<nat, seq<IRect>>)
    requires MultiColumnsUpTo(hits, |hits|) == Ok(text)
    ensures MultiColumnsUpTo(hits + [h], |hits| + 1) ==
      if h.Err? then Err(h.error)
      else if |h.value| > 0 then Ok(text[|hits| := h.value])
      else Ok(text)
  {
    MultiColumnsPrefix(hits, [h], |hits|);
  }

  /** Once a page has failed, the whole document fails with its error. */
  lemma {:induction false} ErrorAborts(pages: seq<ColumnPage>, detector: ColumnPage --> Result<seq<IRect>, ColumnError>, n: nat)
    requires n <= |pages| && Accepts(detector, pages)
    requires MultiColumnsUpTo(PageResults(pages, detector, n), n).Err?
    ensures MultiColumnsWith(pages, detector) == MultiColumnsUpTo(PageResults(pages, detector, n), n)
    decreases |pages| - n
  {
    if n < |pages| {
      var next := PageResults(pages, detector, n + 1);
      assert next == PageResults(pages, detector, n) + next[n..];
      MultiColumnsPrefix(PageResults(pages, detector, n), next[n..], n);
      ErrorAborts(pages, detector, n + 1);
    }
  }

  /** The scan fails exactly when the column detector fails on some page. */
  lemma {:induction false} MultiColumnsFailIff(hits: seq<Result<seq<IRect>, ColumnError>>, n: nat)
    requires n <= |hits|
    ensures MultiColumnsUpTo(hits, n).Err? <==> exists k :: 0 <= k < n && hits[k].Err?
  {
    if n > 0 {
      MultiColumnsFailIff(hits, n - 1);
    }
  }

  /** When no page fails, the page numbers present are exactly the pages with
      detected boxes, and each maps to the boxes detected on that page. */
  lemma {:induction false} MultiColumnsContents(hits: seq<Result<seq<IRect>, ColumnError>>, n: nat)
    requires n <= |hits| && forall k :: 0 <= k < n ==> hits[k].Ok?
    ensures MultiColumnsUpTo(hits, n).Ok?
    ensures forall k: nat :: k in MultiColumnsUpTo(hits, n).value <==> k < n && hits[k].value != []
    ensures forall k :: k in MultiColumnsUpTo(hits, n).value ==> k < n && MultiColumnsUpTo(hits, n).value[k] == hits[k].value
  {
    if n > 0 {
      MultiColumnsContents(hits, n - 1);
    }
  }

  /** Entry k of the contributions is page k's contribution. */
  lemma {:induction false} PageResultsAt(pages: seq<ColumnPage>, detector: ColumnPage --> Result<seq<IRect>, ColumnError>, n: nat, k: nat)
    requires k < n <= |pages| && Accepts(detector, pages)
    ensures PageResults(pages, detector, n)[k] == PageHits(detector(pages[k]))
  {
    if k < n - 1 {
      PageResultsAt(pages, detector, n - 1, k);
    }
  }

  /** The document scan fails exactly when the column detector fails on some
      page; otherwise its keys are exactly the pages where the templates
      matched, each mapped to the boxes matched there. */
  lemma MultiColumnsWithSpec(pages: seq<ColumnPage>, detector: ColumnPage --> Result<seq<IRect>, ColumnError>)
    requires Accepts(detector, pages)
    ensures MultiColumnsWith(pages, detector).Err? <==> exists k :: 0 <= k < |pages| && detector(pages[k]).Err?
    ensures MultiColumnsWith(pages, detector).Ok? ==>
      forall k: nat :: k in MultiColumnsWith(pages, detector).value <==>
        k < |pages| && Detect(detector(pages[k]).value) != []
    ensures MultiColumnsWith(pages, detector).Ok? ==>
      forall k :: k in MultiColumnsWith(pages, detector).value ==>
        k < |pages| && MultiColumnsWith(pages, detector).value[k] == Detect(detector(pages[k]).value)
  {
    var hits := PageResults(pages, detector, |pages|);
    forall k | 0 <= k < |pages|
      ensures hits[k] == PageHits(detector(pages[k]))
    {
      PageResultsAt(pages, detector, |pages|, k);
    }
    MultiColumnsFailIff(hits, |pages|);
    if forall k :: 0 <= k < |pages| ==> hits[k].Ok? {
      MultiColumnsContents(hits, |pages|);
    }
  }

  /** The first n pages have been scanned without failure, giving text. */
  ghost predicate ScannedUpTo(pages: seq<ColumnPage>, detector: ColumnPage --> Result<seq<IRect>, ColumnError>, n: nat, text: map<nat, seq<IRect>>)
    requires n <= |pages| && Accepts(detector, pages)
  {
    MultiColumnsUpTo(PageResults(pages, detector, n), n) == Ok(text)
  }

  /** A failure on the next page is the document's result. */
  lemma ScanPageFails(pages: seq<ColumnPage>, detector: ColumnPage --> Result<seq<IRect>, ColumnError>, page: nat, text: map<nat, seq<IRect>>)
    requires page < |pages| && Accepts(detector, pages) && ScannedUpTo(pages, detector, page, text)
    requires PageHits(detector(pages[page])).Err?
    ensures MultiColumnsWith(pages, detector) == Err(PageHits(detector(pages[page])).error)
  {
    var h := PageHits(detector(pages[page]));
    assert PageResults(pages, detector, page + 1) == PageResults(pages, detector, page) + [h];
    MultiColumnsStep(PageResults(pages, detector, page), h, text);
    ErrorAborts(pages, detector, page + 1);
  }

  /** Otherwise the next page's boxes, if any, join the map. */
  lemma ScanPageContinues(pages: seq<ColumnPage>, detector: ColumnPage --> Result<seq<IRect>, ColumnError>, page: nat, text: map<nat, seq<IRect>>)
    requires page < |pages| && Accepts(detector, pages) && ScannedUpTo(pages, detector, page, text)
    requires PageHits(detector(pages[page])).Ok?
    ensures var h := PageHits(detector(pages[page]));
      ScannedUpTo(pages, detector, page + 1, if |h.value| > 0 then text[page := h.value] else text)
  {
    var h := PageHits(detector(pages[page]));
    assert PageResults(pages, detector, page + 1) == PageResults(pages, detector, page) + [h];
    MultiColumnsStep(PageResults(pages, detector, page), h, text);
  }

  /** One page of check_multi_column_text: column_boxes, then the scan. */
  method PageContribution(page: ColumnPage) returns (h: Result<seq<IRect>, ColumnError>)
    requires BlocksHaveLines(page.blocks)
    ensures h == PageHits(PageColumns(page))
  {
    var bboxes := ColumnBoxes(page, true);
    if bboxes.Err? {
      return Err(bboxes.error);
    }
    var p := DetectColumns(bboxes.value);
    h := Ok(p);
  }

  /** check_multi_column_text, page by page. */
  method CheckMultiColumnText(pages: seq<ColumnPage>) returns (r: Result<map<nat, seq<IRect>>, ColumnError>)
    requires PagesHaveLines(pages)
    ensures r == MultiColumnsOf(pages)
  {
    var text: map<nat, seq<IRect>> := map[];
    var page := 0;
    while page < |pages|
      invariant page <= |pages| && ScannedUpTo(pages, PageColumns, page, text)
    {
      var h := PageContribution(pages[page]);
      if h.Err? {
        ScanPageFails(pages, PageColumns, page, text);
        return Err(h.error);
      }
      ScanPageContinues(pages, PageColumns, page, text);
      if |h.value| > 0 {
        text := text[page := h.value];
      }
      page := page + 1;
    }
    r := Ok(text);
  }
}
