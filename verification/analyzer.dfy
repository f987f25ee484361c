/** The page annotator (DocumentAnalyzer.extract_coordinates in
    scripts/extract_annotations.py): every block of every page goes into at
    most one region list of the page's annotation, chosen by a first-match
    chain of tests; the analyzer keeps a baseline font size that page 0 sets
    and that a running sample of paragraph sizes re-estimates. */
module Analyzer {
  import opened Wrappers
  import opened Geometry
  import opened TextUtil
  import opened FontSizes
  import opened Blocks
  import CleanBlocks
  import Columns
  import MultiColumn

  // ---------------------------------------------------------------------
  // Annotations
  // ---------------------------------------------------------------------

  /** The region lists of a page annotation. */
  datatype Region =
    | Title | Paragraph | Table | Picture | TableSignature | PictureSignature
    | NumberedList | MarkedList | Header | Footer | Footnote | Formula | MulticolumnText

  /** The regions a block can be put in: every list but the table and
      multi-column ones, which are filled before the block loop. */
  type BlockRegion = r: Region | r != Table && r != MulticolumnText witness Paragraph

  /** Every region, once each. */
  const AllRegions: seq<Region> :=
    [Title, Paragraph, Table, Picture, TableSignature, PictureSignature,
     NumberedList, MarkedList, Header, Footer, Footnote, Formula, MulticolumnText]

  lemma InAllRegions(r: Region)
    ensures r in AllRegions
  {
    match r
    case Title => assert AllRegions[0] == r;
    case Paragraph => assert AllRegions[1] == r;
    case Table => assert AllRegions[2] == r;
    case Picture => assert AllRegions[3] == r;
    case TableSignature => assert AllRegions[4] == r;
    case PictureSignature => assert AllRegions[5] == r;
    case NumberedList => assert AllRegions[6] == r;
    case MarkedList => assert AllRegions[7] == r;
    case Header => assert AllRegions[8] == r;
    case Footer => assert AllRegions[9] == r;
    case Footnote => assert AllRegions[10] == r;
    case Formula => assert AllRegions[11] == r;
    case MulticolumnText => assert AllRegions[12] == r;
  }

  /** rs lists every region exactly once. */
  predicate Enumerates(rs: seq<Region>)
  {
    (forall i, j :: 0 <= i < j < |rs| ==> rs[i] != rs[j]) && forall r: Region :: r in rs
  }

  /** The position of each region in AllRegions. */
  function Position(r: Region): nat
  {
    match r
    case Title => 0 case Paragraph => 1 case Table => 2 case Picture => 3
    case TableSignature => 4 case PictureSignature => 5 case NumberedList => 6
    case MarkedList => 7 case Header => 8 case Footer => 9 case Footnote => 10
    case Formula => 11 case MulticolumnText => 12
  }

  lemma AllRegionsEnumerates()
    ensures Enumerates(AllRegions)
  {
    forall r: Region ensures r in AllRegions {
      InAllRegions(r);
    }
    forall i | 0 <= i < |AllRegions| ensures Position(AllRegions[i]) == i {
    }
  }

  /** The boxes of each region, as the page dictionary's lists. */
  type Boxes = map<Region, seq<IRect>>

  /** Every region has a list. */
  predicate Complete(m: Boxes)
  {
    forall r: Region :: r in m
  }

  /** All thirteen lists, empty. */
  function NoBoxes(): (m: Boxes)
    ensures Complete(m) && forall r :: r in m ==> m[r] == []
  {
    var m := map r | r in AllRegions :: [];
    forall r: Region ensures r in m {
      InAllRegions(r);
    }
    m
  }

  /** One page of the output: image size, image file name and the boxes. */
  datatype PageAnnotation = PageAnnotation(imageHeight: int, imageWidth: int, imagePath: string, boxes: Boxes)

  /** A page: its size, its blocks as the text extractor reports them, and
      the column detector's view of the same page. Both `width` and
      `columns.width` stand for the page's `rect.width`; the model does not
      require them to agree, since the annotation reads only `width` and the
      column detector only `columns.width`. */
  datatype Page = Page(width: real, height: real, blocks: seq<Block>, columns: Columns.ColumnPage)

  /** The f'page_{n + 1}.png' image name of page n. */
  function PagePath(n: nat): string
  {
    "page_" + NatToString(n + 1) + ".png"
  }

  /** The page number can be read back from the image name, so no two pages
      share one. */
  lemma PagePathInjective(n: nat, m: nat)
    requires PagePath(n) == PagePath(m)
    ensures n == m
  {
    var p, q := PagePath(n), PagePath(m);
    assert p[5..|p| - 4] == NatToString(n + 1);
    assert q[5..|q| - 4] == NatToString(m + 1);
    NatToStringRoundTrip(n + 1);
    NatToStringRoundTrip(m + 1);
  }

  // ---------------------------------------------------------------------
  // Classification
  // ---------------------------------------------------------------------

  /** What each test of the block loop says about one block. */
  datatype Verdicts = Verdicts(
    picture: bool, tableSignature: bool, pictureSignature: bool, header: bool,
    numberedList: bool, markedList: bool, footer: bool, formula: bool,
    footnote: bool, title: bool)

  /** The tests of the block loop on block b, against the baseline and the
      page height. */
  function VerdictsOf(b: Block, base: int, pageHeight: real): Verdicts
  {
    var text := BlockText(b);
    var fonts := FontsOf(b);
    Verdicts(
      picture := b.blockType == 1,
      tableSignature := IsTableSignature(text),
      pictureSignature := IsPictureSignature(text),
      header := IsHeader(b.bbox),
      numberedList := IsNumberedList(text),
      markedList := IsMarkedList(text),
      footer := IsFooter(b.bbox, pageHeight),
      formula := IsFormula(text, fonts),
      footnote := IsFootnote(text, fonts, b.bbox.y0, pageHeight),
      title := IsTitle(b, base))
  }

  /** The if/elif chain of the block loop: the first test that holds picks
      the region, and a block passing none is a paragraph. */
  function Chosen(v: Verdicts): BlockRegion
  {
    if v.picture then Picture
    else if v.tableSignature then TableSignature
    else if v.pictureSignature then PictureSignature
    else if v.header then Header
    else if v.numberedList then NumberedList
    else if v.markedList then MarkedList
    else if v.footer then Footer
    else if v.formula then Formula
    else if v.footnote then Footnote
    else if v.title then Title
    else Paragraph
  }

  /** The region the block loop puts block b in. */
  function Classify(b: Block, base: int, pageHeight: real): BlockRegion
  {
    Chosen(VerdictsOf(b, base, pageHeight))
  }

  /** The order in which the tests are tried. */
  const Chain: seq<Region> :=
    [Picture, TableSignature, PictureSignature, Header, NumberedList, MarkedList,
     Footer, Formula, Footnote, Title, Paragraph]

  /** The test that admits a block to region r. Table and multi-column boxes
      never come from blocks; the paragraph list takes any block. */
  predicate Holds(v: Verdicts, r: Region)
  {
    match r
    case Picture => v.picture
    case TableSignature => v.tableSignature
    case PictureSignature => v.pictureSignature
    case Header => v.header
    case NumberedList => v.numberedList
    case MarkedList => v.markedList
    case Footer => v.footer
    case Formula => v.formula
    case Footnote => v.footnote
    case Title => v.title
    case Paragraph => true
    case Table => false
    case MulticolumnText => false
  }

  /** The first region of the chain, from position i on, that the tests
      admit; Paragraph when none does. */
  function FirstAdmitting(chain: seq<Region>, i: nat, admits: Region -> bool): Region
    decreases |chain| - i
  {
    if i >= |chain| then Paragraph
    else if admits(chain[i]) then chain[i]
    else FirstAdmitting(chain, i + 1, admits)
  }

  /** What "first admitting" means: the chosen region's test holds and every
      earlier test fails; with no test holding the result is Paragraph. */
  lemma {:induction false} FirstAdmittingSpec(chain: seq<Region>, i: nat, admits: Region -> bool)
    requires i <= |chain|
    ensures var r := FirstAdmitting(chain, i, admits);
      (exists k :: i <= k < |chain| && chain[k] == r && admits(r) &&
         forall j :: i <= j < k ==> !admits(chain[j])) ||
      (r == Paragraph && forall j :: i <= j < |chain| ==> !admits(chain[j]))
    decreases |chain| - i
  {
    if i < |chain| && !admits(chain[i]) {
      FirstAdmittingSpec(chain, i + 1, admits);
    } else if i < |chain| {
      var k := i;
      assert chain[k] == FirstAdmitting(chain, i, admits);
    }
  }

  /** The first-match rule over Chain, test by test. */
  lemma ChainUnfolds(admits: Region -> bool)
    ensures FirstAdmitting(Chain, 0, admits) ==
      if admits(Picture) then Picture
      else if admits(TableSignature) then TableSignature
      else if admits(PictureSignature) then PictureSignature
      else if admits(Header) then Header
      else if admits(NumberedList) then NumberedList
      else if admits(MarkedList) then MarkedList
      else if admits(Footer) then Footer
      else if admits(Formula) then Formula
      else if admits(Footnote) then Footnote
      else if admits(Title) then Title
      else Paragraph
  {
    var c := Chain;
    assert FirstAdmitting(c, 10, admits) == Paragraph;
    assert FirstAdmitting(c, 9, admits) == if admits(Title) then Title else Paragraph;
    assert FirstAdmitting(c, 8, admits) == if admits(Footnote) then Footnote else FirstAdmitting(c, 9, admits);
    assert FirstAdmitting(c, 7, admits) == if admits(Formula) then Formula else FirstAdmitting(c, 8, admits);
    assert FirstAdmitting(c, 6, admits) == if admits(Footer) then Footer else FirstAdmitting(c, 7, admits);
    assert FirstAdmitting(c, 5, admits) == if admits(MarkedList) then MarkedList else FirstAdmitting(c, 6, admits);
    assert FirstAdmitting(c, 4, admits) == if admits(NumberedList) then NumberedList else FirstAdmitting(c, 5, admits);
    assert FirstAdmitting(c, 3, admits) == if admits(Header) then Header else FirstAdmitting(c, 4, admits);
    assert FirstAdmitting(c, 2, admits) == if admits(PictureSignature) then PictureSignature else FirstAdmitting(c, 3, admits);
    assert FirstAdmitting(c, 1, admits) == if admits(TableSignature) then TableSignature else FirstAdmitting(c, 2, admits);
  }

  /** The if/elif chain is the first-match rule over Chain. */
  lemma ChosenIsFirstAdmitting(v: Verdicts)
    ensures Chosen(v) == FirstAdmitting(Chain, 0, r => Holds(v, r))
  {
    ChainUnfolds(r => Holds(v, r));
  }

  /** The chain picks a region whose test holds. */
  lemma ChosenHolds(v: Verdicts)
    ensures Holds(v, Chosen(v))
  {
  }

  // ---------------------------------------------------------------------
  // The block loop of one page
  // ---------------------------------------------------------------------

  /** The two `continue`s: the block lies inside a table box of the page, or
      it has no text and is not an image. */
  predicate Skipped(b: Block, tables: seq<Rect>)
  {
    InAnyTable(b.bbox, tables) || (BlockText(b) == [] && b.blockType != 1)
  }

  /** The blocks of page 0 that feed the first baseline: not inside a table,
      with non-empty text. */
  predicate FeedsBaseline(b: Block, tables: seq<Rect>)
  {
    !InAnyTable(b.bbox, tables) && BlockText(b) != []
  }

  /** The block tests that the page loop is stated over: whether a block is
      skipped (given the page's table areas), its region (given the baseline
      and the page height), and whether page 0 feeds it to the first baseline
      (given the table areas). */
  datatype Tests = Tests(
    skipped: (Block, seq<Rect>) -> bool,
    classify: (Block, int, real) -> BlockRegion,
    feedsBaseline: (Block, seq<Rect>) -> bool)

  /** The tests of extract_coordinates. */
  const SourceTests: Tests := Tests(Skipped, Classify, FeedsBaseline)

  /** What the block loop carries: the page's lists, the page's paragraph
      size sample, the document's paragraph line count, and the baseline. */
  datatype ScanState = ScanState(boxes: Boxes, sample: seq<int>, lineCount: int, base: Option<int>)

  predicate Ready(st: ScanState)
  {
    Complete(st.boxes) && st.base.Some?
  }

  /** One iteration of the block loop, given whether the block is skipped
      and, if not, the region its classification picks. */
  function Step(st: ScanState, b: Block, skipped: bool, region: Region): (r: ScanState)
    requires Ready(st)
    ensures Ready(r)
  {
    if skipped then st
    else
      var boxes := st.boxes[region := st.boxes[region] + [ConvertCoordinates(b.bbox)]];
      if region != Paragraph then st.(boxes := boxes)
      else
        var sample := st.sample + RoundedSizesOf(b);
        var count := st.lineCount + |b.lines|;
        if count > 50 && |sample| > 5 then ScanState(boxes, sample, 0, UpdateBaseFontSize(sample))
        else ScanState(boxes, sample, count, st.base)
  }

  /** A skipped block changes nothing; any other block adds its truncated
      box to the list of its region and leaves every other list as it was. */
  lemma StepAddsOneBox(st: ScanState, b: Block, skipped: bool, region: Region)
    requires Ready(st)
    ensures var r := Step(st, b, skipped, region);
      (skipped ==> r == st) &&
      (!skipped ==> r.boxes[region] == st.boxes[region] + [ConvertCoordinates(b.bbox)] &&
                    forall q :: q != region ==> r.boxes[q] == st.boxes[q])
  {
  }

  /** The baseline rule: only a paragraph block feeds the sample and the line
      count; the baseline is re-estimated when the count exceeds 50 and the
      sample holds more than 5 sizes, and then the count restarts from 0
      while the sample is kept. */
  lemma BaselineUpdateRule(st: ScanState, b: Block, skipped: bool, region: Region)
    requires Ready(st)
    ensures var r := Step(st, b, skipped, region);
      var para := !skipped && region == Paragraph;
      var sample := st.sample + RoundedSizesOf(b);
      var count := st.lineCount + |b.lines|;
      (!para ==> r.sample == st.sample && r.lineCount == st.lineCount && r.base == st.base) &&
      (para ==> r.sample == sample) &&
      (para && count > 50 && |sample| > 5 ==> r.lineCount == 0 && IsFirstMode(sample, r.base.value)) &&
      (para && !(count > 50 && |sample| > 5) ==> r.lineCount == count && r.base == st.base)
  {
    var sample := st.sample + RoundedSizesOf(b);
    if sample != [] {
      UpdateIsMode(sample);
    }
  }

  /** The block loop over the first n blocks of a page with the given table
      areas and height; the classification reads the current baseline. */
  function ScanBlocks(blocks: seq<Block>, n: nat, st0: ScanState,
                      tests: Tests, tables: seq<Rect>, pageHeight: real): (r: ScanState)
    requires n <= |blocks| && Ready(st0)
    ensures Ready(r)
  {
    if n == 0 then st0
    else
      var st := ScanBlocks(blocks, n - 1, st0, tests, tables, pageHeight);
      var b := blocks[n - 1];
      Step(st, b, tests.skipped(b, tables), tests.classify(b, st.base.value, pageHeight))
  }

  /** The total number of boxes over the given regions. */
  function BoxCount(m: Boxes, rs: seq<Region>): nat
    requires forall r :: r in rs ==> r in m
  {
    if rs == [] then 0 else |m[rs[0]]| + BoxCount(m, rs[1..])
  }

  /** Appending one box to one list raises the total by one. */
  lemma {:induction false} BoxCountAppend(m: Boxes, rs: seq<Region>, q: Region, box: IRect)
    requires Complete(m)
    requires forall i, j :: 0 <= i < j < |rs| ==> rs[i] != rs[j]
    ensures BoxCount(m[q := m[q] + [box]], rs) == BoxCount(m, rs) + (if q in rs then 1 else 0)
  {
    if rs != [] {
      var tail := rs[1..];
      assert forall i, j :: 0 <= i < j < |tail| ==> tail[i] != tail[j] by {
        forall i, j | 0 <= i < j < |tail| ensures tail[i] != tail[j] {
          assert tail[i] == rs[i + 1] && tail[j] == rs[j + 1];
        }
      }
      BoxCountAppend(m, tail, q, box);
      if rs[0] == q {
        forall j | 0 <= j < |tail| ensures tail[j] != q {
          assert tail[j] == rs[j + 1];
        }
      }
    }
  }

  /** The number of blocks among the first n that are not skipped. */
  function KeptCount(blocks: seq<Block>, n: nat, tests: Tests, tables: seq<Rect>): nat
    requires n <= |blocks|
  {
    if n == 0 then 0
    else KeptCount(blocks, n - 1, tests, tables) + (if tests.skipped(blocks[n - 1], tables) then 0 else 1)
  }

  /** Over the whole loop, the page gains exactly one box per block that is
      not skipped (counting over any listing of the regions, such as
      AllRegions). */
  lemma {:induction false} ScanBlocksCount(blocks: seq<Block>, n: nat, st0: ScanState,
                                           tests: Tests, tables: seq<Rect>, pageHeight: real,
                                           rs: seq<Region>)
    requires n <= |blocks| && Ready(st0) && Enumerates(rs)
    ensures BoxCount(ScanBlocks(blocks, n, st0, tests, tables, pageHeight).boxes, rs) ==
              BoxCount(st0.boxes, rs) + KeptCount(blocks, n, tests, tables)
  {
    if n > 0 {
      ScanBlocksCount(blocks, n - 1, st0, tests, tables, pageHeight, rs);
      var st := ScanBlocks(blocks, n - 1, st0, tests, tables, pageHeight);
      var b := blocks[n - 1];
      if !tests.skipped(b, tables) {
        var region := tests.classify(b, st.base.value, pageHeight);
        BoxCountAppend(st.boxes, rs, region, ConvertCoordinates(b.bbox));
      }
    }
  }

  /** The block loop leaves the table and multi-column lists as they were. */
  lemma {:induction false} ScanKeepsTablesAndColumns(blocks: seq<Block>, n: nat, st0: ScanState,
                                                     tests: Tests, tables: seq<Rect>, pageHeight: real)
    requires n <= |blocks| && Ready(st0)
    ensures var r := ScanBlocks(blocks, n, st0, tests, tables, pageHeight);
      r.boxes[Table] == st0.boxes[Table] && r.boxes[MulticolumnText] == st0.boxes[MulticolumnText]
  {
    if n > 0 {
      ScanKeepsTablesAndColumns(blocks, n - 1, st0, tests, tables, pageHeight);
      var st := ScanBlocks(blocks, n - 1, st0, tests, tables, pageHeight);
      var b := blocks[n - 1];
      StepAddsOneBox(st, b, tests.skipped(b, tables), tests.classify(b, st.base.value, pageHeight));
    }
  }

  // ---------------------------------------------------------------------
  // One page
  // ---------------------------------------------------------------------

  /** `tables.get(page_num, [])`. */
  function TablesOn(tables: map<nat, seq<Rect>>, n: nat): seq<Rect>
  {
    if n in tables then tables[n] else []
  }

  /** The multi-column boxes found on page n (`multi_columns.get(page_num, [])`);
      they already have integer corners, which int() leaves as they are. */
  function MultiColumnsOn(multi: map<nat, seq<IRect>>, n: nat): seq<IRect>
  {
    if n in multi then multi[n] else []
  }

  /** Every box truncated, in order. */
  function ConvertAll(rs: seq<Rect>): (r: seq<IRect>)
    ensures |r| == |rs|
    ensures forall k :: 0 <= k < |rs| ==> r[k] == ConvertCoordinates(rs[k])
  {
    if rs == [] then [] else ConvertAll(rs[..|rs| - 1]) + [ConvertCoordinates(rs[|rs| - 1])]
  }

  /** The page dictionary before the block loop: empty lists except the
      page's table boxes and multi-column boxes. */
  function PageStart(n: nat, tables: map<nat, seq<Rect>>, multi: map<nat, seq<IRect>>): (m: Boxes)
    ensures Complete(m)
  {
    NoBoxes()[Table := ConvertAll(TablesOn(tables, n))][MulticolumnText := MultiColumnsOn(multi, n)]
  }

  /** The blocks of page 0 that feed the first baseline, in order. */
  function BaselineBlocks(blocks: seq<Block>, tables: seq<Rect>, tests: Tests): seq<Block>
  {
    if blocks == [] then []
    else
      var b := blocks[|blocks| - 1];
      BaselineBlocks(blocks[..|blocks| - 1], tables, tests) + (if tests.feedsBaseline(b, tables) then [b] else [])
  }

  /** The baseline before the block loop of page n: page 0 sets it from its
      own text blocks when there is none yet; otherwise it is kept. */
  function PageBase(page: Page, n: nat, tables: map<nat, seq<Rect>>, tests: Tests, base: Option<int>): (r: Option<int>)
    ensures n == 0 ==> r.Some?
    ensures base.Some? ==> r == base
  {
    if n == 0 && base.None? then Some(BaseFontSizeOf(ParagraphSizes(BaselineBlocks(page.blocks, TablesOn(tables, 0), tests))))
    else base
  }

  /** The state of the analyzer across pages: the annotations so far, the
      baseline and the paragraph line count. */
  datatype DocState = DocState(annotations: seq<PageAnnotation>, base: Option<int>, lineCount: int)

  /** One iteration of the page loop. */
  function AnnotatePageSpec(page: Page, n: nat, tables: map<nat, seq<Rect>>, multi: map<nat, seq<IRect>>,
                            tests: Tests, st: DocState): (r: DocState)
    requires n == 0 || st.base.Some?
    ensures r.base.Some?
    ensures |r.annotations| == |st.annotations| + 1 && r.annotations[..|st.annotations|] == st.annotations
  {
    var start := ScanState(PageStart(n, tables, multi), [], st.lineCount, PageBase(page, n, tables, tests, st.base));
    var scan := ScanBlocks(page.blocks, |page.blocks|, start, tests, TablesOn(tables, n), page.height);
    var annotation := PageAnnotation(Trunc(page.height), Trunc(page.width), PagePath(n), scan.boxes);
    DocState(st.annotations + [annotation], scan.base, scan.lineCount)
  }

  /** A page's annotation does not depend on the annotations before it. */
  lemma AnnotatePageAppends(page: Page, n: nat, tables: map<nat, seq<Rect>>, multi: map<nat, seq<IRect>>,
                            tests: Tests, st: DocState)
    requires n == 0 || st.base.Some?
    ensures var alone := AnnotatePageSpec(page, n, tables, multi, tests, DocState([], st.base, st.lineCount));
      AnnotatePageSpec(page, n, tables, multi, tests, st) ==
        DocState(st.annotations + alone.annotations, alone.base, alone.lineCount)
  {
  }

  /** The page loop over the first n pages, from baseline base0. */
  function AnnotateUpTo(pages: seq<Page>, n: nat, tables: map<nat, seq<Rect>>, multi: map<nat, seq<IRect>>,
                        tests: Tests, base0: Option<int>): (r: DocState)
    requires n <= |pages|
    ensures |r.annotations| == n
    ensures n > 0 ==> r.base.Some?
  {
    if n == 0 then DocState([], base0, 0)
    else AnnotatePageSpec(pages[n - 1], n - 1, tables, multi, tests, AnnotateUpTo(pages, n - 1, tables, multi, tests, base0))
  }

  /** The column detector's view of every page. */
  function ColumnsOf(pages: seq<Page>): (r: seq<Columns.ColumnPage>)
    ensures |r| == |pages| && forall k :: 0 <= k < |pages| ==> r[k] == pages[k].columns
  {
    if pages == [] then [] else ColumnsOf(pages[..|pages| - 1]) + [pages[|pages| - 1].columns]
  }

  /** extract_coordinates on a whole document: the multi-column scan first
      (its failure is the call's failure), then the page loop. */
  ghost function ExtractSpec(pages: seq<Page>, tables: map<nat, seq<Rect>>, base0: Option<int>): Result<DocState, CleanBlocks.ColumnError>
    requires MultiColumn.PagesHaveLines(ColumnsOf(pages))
  {
    var multi := MultiColumn.MultiColumnsOf(ColumnsOf(pages));
    if multi.Err? then Err(multi.error) else Ok(AnnotateUpTo(pages, |pages|, tables, multi.value, SourceTests, base0))
  }

  /** What page n's annotation holds apart from the block loop's lists: the
      page's truncated size, its own image name, all thirteen lists, and its
      table and multi-column boxes. */
  predicate Describes(a: PageAnnotation, page: Page, n: nat, tables: map<nat, seq<Rect>>, multi: map<nat, seq<IRect>>)
  {
    a.imageHeight == Trunc(page.height) && a.imageWidth == Trunc(page.width) &&
    a.imagePath == PagePath(n) && Complete(a.boxes) &&
    a.boxes[Table] == ConvertAll(TablesOn(tables, n)) && a.boxes[MulticolumnText] == MultiColumnsOn(multi, n)
  }

  /** The annotation that one page adds describes that page. */
  lemma PageAnnotationFacts(page: Page, n: nat, tables: map<nat, seq<Rect>>, multi: map<nat, seq<IRect>>,
                            tests: Tests, st: DocState)
    requires n == 0 || st.base.Some?
    ensures Describes(AnnotatePageSpec(page, n, tables, multi, tests, st).annotations[|st.annotations|],
                      page, n, tables, multi)
  {
    var start := ScanState(PageStart(n, tables, multi), [], st.lineCount, PageBase(page, n, tables, tests, st.base));
    ScanKeepsTablesAndColumns(page.blocks, |page.blocks|, start, tests, TablesOn(tables, n), page.height);
  }

  /** Later pages never change earlier pages' annotations: the first m
      annotations after n pages are those after m pages. */
  lemma {:induction false} AnnotateUpToPrefix(pages: seq<Page>, m: nat, n: nat, tables: map<nat, seq<Rect>>,
                                              multi: map<nat, seq<IRect>>, tests: Tests, base0: Option<int>)
    requires m <= n <= |pages|
    ensures AnnotateUpTo(pages, n, tables, multi, tests, base0).annotations[..m] ==
            AnnotateUpTo(pages, m, tables, multi, tests, base0).annotations
    decreases n
  {
    if m < n {
      var before := AnnotateUpTo(pages, n - 1, tables, multi, tests, base0).annotations;
      var after := AnnotateUpTo(pages, n, tables, multi, tests, base0).annotations;
      AnnotateUpToPrefix(pages, m, n - 1, tables, multi, tests, base0);
      assert after[..m] == after[..n - 1][..m];
    }
  }

  /** Every annotation of the page loop describes its own page. */
  lemma AnnotationOfPage(pages: seq<Page>, n: nat, tables: map<nat, seq<Rect>>,
                         multi: map<nat, seq<IRect>>, tests: Tests, base0: Option<int>, k: nat)
    requires k < n <= |pages|
    ensures Describes(AnnotateUpTo(pages, n, tables, multi, tests, base0).annotations[k], pages[k], k, tables, multi)
  {
    AnnotateUpToPrefix(pages, k + 1, n, tables, multi, tests, base0);
    var prev := AnnotateUpTo(pages, k, tables, multi, tests, base0);
    PageAnnotationFacts(pages[k], k, tables, multi, tests, prev);
    assert AnnotateUpTo(pages, n, tables, multi, tests, base0).annotations[k] ==
           AnnotateUpTo(pages, n, tables, multi, tests, base0).annotations[..k + 1][k];
  }

  // ---------------------------------------------------------------------
  // The analyzer object
  // ---------------------------------------------------------------------

  class DocumentAnalyzer {
    /** base_font_size: None until the first document's page 0 sets it. */
    var baseFontSize: Option<int>

    constructor()
      ensures baseFontSize == None
    {
      baseFontSize := None;
    }

    /** get_base_font_size: the most common rounded size over the blocks'
        spans, 12 when there are none. */
    method GetBaseFontSize(paragraphs: seq<Block>) returns (size: int)
      ensures size == BaseFontSizeOf(ParagraphSizes(paragraphs))
    {
      var sizes := [];
      var i := 0;
      while i < |paragraphs|
        invariant i <= |paragraphs|
        invariant sizes == ParagraphSizes(paragraphs[..i])
      {
        assert paragraphs[..i + 1][..i] == paragraphs[..i];
        var lines;
        sizes, lines := AppendSizes(sizes, paragraphs[i]);
        i := i + 1;
      }
      assert paragraphs[..i] == paragraphs;
      size := if sizes == [] then 12 else Mode(sizes);
    }

    /** _is_title against the current baseline (which must be set). */
    method IsTitleBlock(b: Block) returns (r: bool)
      requires baseFontSize.Some?
      ensures r == IsTitle(b, baseFontSize.value)
    {
      var isBold, sizes := TitleFacts(b);
      if sizes == [] {
        return false;
      }
      r := isBold && (Mode(sizes) >= baseFontSize.value + 2 || 26 in sizes);
    }

    /** The if/elif chain of the block loop. */
    method ClassifyBlock(b: Block, text: string, pageHeight: real) returns (r: Region)
      requires baseFontSize.Some? && text == BlockText(b)
      ensures r == Classify(b, baseFontSize.value, pageHeight)
    {
      if b.blockType == 1 {
        return Picture;
      } else if IsTableSignature(text) {
        return TableSignature;
      } else if IsPictureSignature(text) {
        return PictureSignature;
      } else if IsHeader(b.bbox) {
        return Header;
      } else if IsNumberedList(text) {
        return NumberedList;
      } else if IsMarkedList(text) {
        return MarkedList;
      } else if IsFooter(b.bbox, pageHeight) {
        return Footer;
      }
      var fonts := CollectFonts(b);
      if IsFormula(text, fonts) {
        return Formula;
      } else if IsFootnote(text, fonts, b.bbox.y0, pageHeight) {
        return Footnote;
      }
      var title := IsTitleBlock(b);
      r := if title then Title else Paragraph;
    }

    /** One iteration of the block loop, on block i of the page, the page's
        lists, the sample and the line count. */
    method ScanBlock(boxes: Boxes, sample: seq<int>, lineCount: int, blocks: seq<Block>, i: nat, ghost start: ScanState,
                     tables: seq<Rect>, pageHeight: real)
      returns (boxes': Boxes, sample': seq<int>, lineCount': int)
      modifies this
      requires i < |blocks| && Ready(start)
      requires ScanState(boxes, sample, lineCount, baseFontSize) == ScanBlocks(blocks, i, start, SourceTests, tables, pageHeight)
      ensures ScanState(boxes', sample', lineCount', baseFontSize) ==
                ScanBlocks(blocks, i + 1, start, SourceTests, tables, pageHeight)
    {
      var b := blocks[i];
      boxes', sample', lineCount' := boxes, sample, lineCount;
      var text := ExtractTextFromBlock(b);
      if InAnyTable(b.bbox, tables) {
        return;
      }
      if text == [] && b.blockType != 1 {
        return;
      }
      var region := ClassifyBlock(b, text, pageHeight);
      boxes' := boxes[region := boxes[region] + [ConvertCoordinates(b.bbox)]];
      if region == Paragraph {
        var lines;
        sample', lines := AppendSizes(sample, b);
        lineCount' := lineCount + lines;
        if lineCount' > 50 && |sample'| > 5 {
          baseFontSize := UpdateBaseFontSize(sample');
          lineCount' := 0;
        }
      }
    }

    /** The blocks of page 0 that the first baseline is computed from. */
    method CollectBaselineBlocks(blocks: seq<Block>, tables: seq<Rect>) returns (paragraphs: seq<Block>)
      ensures paragraphs == BaselineBlocks(blocks, tables, SourceTests)
    {
      paragraphs := [];
      var i := 0;
      while i < |blocks|
        invariant i <= |blocks|
        invariant paragraphs == BaselineBlocks(blocks[..i], tables, SourceTests)
      {
        assert blocks[..i + 1][..i] == blocks[..i];
        if !InAnyTable(blocks[i].bbox, tables) {
          var text := ExtractTextFromBlock(blocks[i]);
          if text != [] {
            paragraphs := paragraphs + [blocks[i]];
          }
        }
        i := i + 1;
      }
      assert blocks[..i] == blocks;
    }

    /** The `table` list of the page dictionary. */
    static method ConvertBoxes(rs: seq<Rect>) returns (out: seq<IRect>)
      ensures out == ConvertAll(rs)
    {
      out := [];
      var i := 0;
      while i < |rs|
        invariant i <= |rs| && out == ConvertAll(rs[..i])
      {
        assert rs[..i + 1][..i] == rs[..i];
        out := out + [ConvertCoordinates(rs[i])];
        i := i + 1;
      }
      assert rs[..i] == rs;
    }

    /** The block loop of one page, from the page's starting lists. */
    method ScanPage(blocks: seq<Block>, tables: seq<Rect>, pageHeight: real, boxes0: Boxes, lineCount: int)
      returns (boxes: Boxes, sample: seq<int>, lineCount': int)
      modifies this
      requires Ready(ScanState(boxes0, [], lineCount, baseFontSize))
      ensures ScanState(boxes, sample, lineCount', baseFontSize) ==
                ScanBlocks(blocks, |blocks|, ScanState(boxes0, [], lineCount, old(baseFontSize)), SourceTests, tables, pageHeight)
    {
      ghost var start := ScanState(boxes0, [], lineCount, baseFontSize);
      boxes, sample, lineCount' := boxes0, [], lineCount;
      for i := 0 to |blocks|
        invariant ScanState(boxes, sample, lineCount', baseFontSize) == ScanBlocks(blocks, i, start, SourceTests, tables, pageHeight)
      {
        boxes, sample, lineCount' := ScanBlock(boxes, sample, lineCount', blocks, i, start, tables, pageHeight);
      }
    }

    /** One iteration of the page loop of extract_coordinates. */
    method AnnotatePage(page: Page, n: nat, tables: map<nat, seq<Rect>>, multi: map<nat, seq<IRect>>, lineCount: int)
      returns (annotation: PageAnnotation, lineCount': int)
      modifies this
      requires n == 0 || baseFontSize.Some?
      ensures DocState([annotation], baseFontSize, lineCount') ==
                AnnotatePageSpec(page, n, tables, multi, SourceTests, DocState([], old(baseFontSize), lineCount))
    {
      var tableAreas := TablesOn(tables, n);
      var tableBoxes := ConvertBoxes(tableAreas);
      var boxes := NoBoxes()[Table := tableBoxes][MulticolumnText := MultiColumnsOn(multi, n)];
      if n == 0 {
        var paragraphs := CollectBaselineBlocks(page.blocks, tableAreas);
        if baseFontSize.None? {
          var size := GetBaseFontSize(paragraphs);
          baseFontSize := Some(size);
        }
      }
      assert boxes == PageStart(n, tables, multi);
      assert baseFontSize == PageBase(page, n, tables, SourceTests, old(baseFontSize));
      var sample;
      boxes, sample, lineCount' := ScanPage(page.blocks, tableAreas, page.height, boxes, lineCount);
      annotation := PageAnnotation(Trunc(page.height), Trunc(page.width), PagePath(n), boxes);
    }

    /** extract_coordinates: the multi-column scan, whose failure leaves the
        analyzer as it was, then every page in order. */
    method ExtractCoordinates(pages: seq<Page>, tables: map<nat, seq<Rect>>)
      returns (r: Result<seq<PageAnnotation>, CleanBlocks.ColumnError>)
      modifies this
      requires MultiColumn.PagesHaveLines(ColumnsOf(pages))
      ensures r.Err? ==> baseFontSize == old(baseFontSize)
      ensures var spec := ExtractSpec(pages, tables, old(baseFontSize));
        (r.Err? <==> spec.Err?) &&
        (r.Err? ==> r.error == spec.error) &&
        (r.Ok? ==> r.value == spec.value.annotations && baseFontSize == spec.value.base)
    {
      var multi := MultiColumn.CheckMultiColumnText(ColumnsOf(pages));
      if multi.Err? {
        return Err(multi.error);
      }
      ghost var base0 := baseFontSize;
      var annotations := [];
      var lineCount := 0;
      var n := 0;
      while n < |pages|
        invariant n <= |pages|
        invariant DocState(annotations, baseFontSize, lineCount) == AnnotateUpTo(pages, n, tables, multi.value, SourceTests, base0)
      {
        var annotation;
        AnnotatePageAppends(pages[n], n, tables, multi.value, SourceTests, DocState(annotations, baseFontSize, lineCount));
        annotation, lineCount := AnnotatePage(pages[n], n, tables, multi.value, lineCount);
        annotations := annotations + [annotation];
        n := n + 1;
      }
      r := Ok(annotations);
    }
  }
}
