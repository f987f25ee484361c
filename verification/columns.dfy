/** The column detector column_boxes of scripts/extract_annotations.py: it
    turns one page's text-block geometry into boxes that each wrap a column.
    Passes: block rectangles from lines with visible text, a sort by
    (background, top, left), the right-extension pass, the join pass and
    the cleaning pass. The drawings, image rectangles and text blocks it
    reads from the PDF page are inputs here. */
module Columns {
  import opened Wrappers
  import opened Geometry
  import opened TextUtil
  import opened Sorting
  import opened CleanBlocks

  /** One line of a text block: its box, its writing direction and the texts of its spans. */
  datatype ColLine = ColLine(bbox: IRect, dir: (real, real), spanTexts: seq<string>)

  /** One text block of the page, as get_text("dict") reports it (clipped to the body area). */
  datatype ColBlock = ColBlock(bbox: IRect, lines: seq<ColLine>)

  /** What column_boxes reads from one page: its width, the rectangles of
      its vector drawings, the rectangles of its images and its text blocks. */
  datatype ColumnPage = ColumnPage(width: real, drawings: seq<IRect>, images: seq<IRect>, blocks: seq<ColBlock>)

  /** Every block has a first line (line0 = b["lines"][0] is read unconditionally). */
  predicate BlocksHaveLines(blocks: seq<ColBlock>)
  {
    forall k :: 0 <= k < |blocks| ==> |blocks[k].lines| > 0
  }

  // ---------------------------------------------------------------------
  // Helpers: in_bbox, intersects_bboxes, can_extend
  // ---------------------------------------------------------------------

  /** in_bbox: the 1-based index of the first box containing bb, or 0. */
  function InBbox(bb: IRect, boxes: seq<IRect>): (r: nat)
    ensures r <= |boxes|
    ensures r == 0 <==> forall k :: 0 <= k < |boxes| ==> !Contains(boxes[k], bb)
    ensures r > 0 ==> Contains(boxes[r - 1], bb)
    ensures forall k :: 0 <= k < r - 1 ==> !Contains(boxes[k], bb)
  {
    if boxes == [] then 0
    else if Contains(boxes[0], bb) then 1
    else
      var r := InBbox(bb, boxes[1..]);
      if r == 0 then 0 else r + 1
  }

  /** intersects_bboxes: some box of the list shares area with bb. */
  function IntersectsBboxes(bb: IRect, boxes: seq<IRect>): (r: bool)
    ensures r <==> exists k :: 0 <= k < |boxes| && Intersects(bb, boxes[k])
  {
    if boxes == [] then false
    else Intersects(bb, boxes[0]) || IntersectsBboxes(bb, boxes[1..])
  }

  /** The per-item test of can_extend: a removed item, the box being
      extended, or an item the candidate does not meet. */
  predicate Clear(temp: IRect, bb: IRect, item: Option<IRect>)
  {
    item.None? || item == Some(bb) || !Intersects(temp, item.value)
  }

  /** can_extend: temp may replace bb unless it meets an item of the list.
      The vertical-text test sits inside the loop, so an empty list allows
      anything, even a temp that crosses vertical text. */
  function CanExtend(temp: IRect, bb: IRect, items: seq<Option<IRect>>, verts: seq<IRect>): (r: bool)
    ensures r <==> |items| == 0 ||
                   (!IntersectsBboxes(temp, verts) && forall k :: 0 <= k < |items| ==> Clear(temp, bb, items[k]))
  {
    if items == [] then true
    else if !IntersectsBboxes(temp, verts) && Clear(temp, bb, items[0]) then
      var r := CanExtend(temp, bb, items[1..], verts);
      assert forall k :: 1 <= k < |items| ==> items[k] == items[1..][k - 1];
      r
    else false
  }

  /** The list of boxes seen as a list whose items may have been removed. */
  function Present(s: seq<IRect>): (r: seq<Option<IRect>>)
    ensures |r| == |s| && forall k :: 0 <= k < |s| ==> r[k] == Some(s[k])
  {
    if s == [] then [] else [Some(s[0])] + Present(s[1..])
  }

  // ---------------------------------------------------------------------
  // Block rectangles (the loop over the page's text blocks)
  // ---------------------------------------------------------------------

  /** "".join(s.strip() for s in spans): the visible text of a line. */
  function JoinStripped(texts: seq<string>): string
  {
    if texts == [] then [] else Strip(texts[0]) + JoinStripped(texts[1..])
  }

  /** A line takes part in its block's rectangle when its visible text has more than one character. */
  predicate Counts(l: ColLine)
  {
    |JoinStripped(l.spanTexts)| > 1
  }

  /** srect |= line bbox over the counted lines, starting from the empty rectangle. */
  function LinesRect(lines: seq<ColLine>): (r: IRect)
    ensures forall k :: 0 <= k < |lines| && Counts(lines[k]) && !IsEmpty(lines[k].bbox) ==>
              Contains(r, lines[k].bbox)
    ensures IsEmpty(r) <==> forall k :: 0 <= k < |lines| ==> !(Counts(lines[k]) && !IsEmpty(lines[k].bbox))
  {
    if lines == [] then EmptyIRect
    else
      var init := lines[..|lines| - 1];
      var last := lines[|lines| - 1];
      var acc := LinesRect(init);
      assert forall k :: 0 <= k < |init| ==> init[k] == lines[k];
      if Counts(last) then Union(acc, last.bbox) else acc
  }

  /** The first line of a block runs left to right (dir == (1, 0)). */
  predicate Horizontal(b: ColBlock)
    requires |b.lines| > 0
  {
    b.lines[0].dir == (1.0, 0.0)
  }

  /** One block's contribution to the text and vertical-text rectangles. */
  function BlockStep(prev: (seq<IRect>, seq<IRect>), b: ColBlock, images: seq<IRect>, noImageText: bool): (r: (seq<IRect>, seq<IRect>))
    requires |b.lines| > 0
  {
    if noImageText && InBbox(b.bbox, images) != 0 then prev
    else if !Horizontal(b) then (prev.0, prev.1 + [b.bbox])
    else
      var rect := LinesRect(b.lines);
      if !IsEmpty(rect) then (prev.0 + [rect], prev.1) else prev
  }

  /** The text rectangles and the vertical-text rectangles built from the
      blocks, in block order; blocks lying inside an image are ignored when
      noImageText holds. */
  function BlockRects(blocks: seq<ColBlock>, images: seq<IRect>, noImageText: bool): (r: (seq<IRect>, seq<IRect>))
    requires BlocksHaveLines(blocks)
    ensures forall k :: 0 <= k < |r.0| ==> !IsEmpty(r.0[k])
    ensures |r.0| + |r.1| <= |blocks|
  {
    if blocks == [] then ([], [])
    else
      BlockStep(BlockRects(blocks[..|blocks| - 1], images, noImageText), blocks[|blocks| - 1], images, noImageText)
  }

  /** BlockRects over one more block. */
  lemma BlockRectsPrefix(blocks: seq<ColBlock>, images: seq<IRect>, noImageText: bool, i: nat)
    requires BlocksHaveLines(blocks) && i < |blocks|
    ensures BlockRects(blocks[..i + 1], images, noImageText) ==
      BlockStep(BlockRects(blocks[..i], images, noImageText), blocks[i], images, noImageText)
  {
    assert blocks[..i + 1][..i] == blocks[..i];
  }

  /** The inner loop over a block's lines: srect |= line bbox for each counted line. */
  method UnionOfLines(lines: seq<ColLine>) returns (srect: IRect)
    ensures srect == LinesRect(lines)
  {
    srect := EmptyIRect;
    var n := 0;
    while n < |lines|
      invariant 0 <= n <= |lines|
      invariant srect == LinesRect(lines[..n])
    {
      assert lines[..n + 1][..n] == lines[..n];
      var line := lines[n];
      if |JoinStripped(line.spanTexts)| > 1 {
        srect := Union(srect, line.bbox);
      }
      n := n + 1;
    }
    assert lines[..n] == lines;
  }

  /** The block-rectangle loop: appends to the text and vertical-text lists. */
  method MakeBlockRects(blocks: seq<ColBlock>, images: seq<IRect>, noImageText: bool)
    returns (bboxes: seq<IRect>, verts: seq<IRect>)
    requires BlocksHaveLines(blocks)
    ensures (bboxes, verts) == BlockRects(blocks, images, noImageText)
  {
    bboxes, verts := [], [];
    var i := 0;
    while i < |blocks|
      invariant 0 <= i <= |blocks|
      invariant (bboxes, verts) == BlockRects(blocks[..i], images, noImageText)
    {
      BlockRectsPrefix(blocks, images, noImageText, i);
      bboxes, verts := AddBlock(bboxes, verts, blocks[i], images, noImageText);
      i := i + 1;
    }
    assert blocks[..i] == blocks;
  }

  /** The body of the block loop for one block b. */
  method AddBlock(bboxes0: seq<IRect>, verts0: seq<IRect>, b: ColBlock, images: seq<IRect>, noImageText: bool)
    returns (bboxes: seq<IRect>, verts: seq<IRect>)
    requires |b.lines| > 0
    ensures (bboxes, verts) == BlockStep((bboxes0, verts0), b, images, noImageText)
  {
    bboxes, verts := bboxes0, verts0;
    if noImageText && InBbox(b.bbox, images) != 0 {
      // the block lies inside an image
    } else if b.lines[0].dir != (1.0, 0.0) {
      verts := verts + [b.bbox];
    } else {
      var srect := UnionOfLines(b.lines);
      if !IsEmpty(srect) {
        bboxes := bboxes + [srect];
      }
    }
  }

  // ---------------------------------------------------------------------
  // Sort keys
  // ---------------------------------------------------------------------

  /** Drawings are sorted by (top, left). */
  function PathKey(b: IRect): SortKey { SortKey(b.y0, b.x0, 0) }

  /** Text boxes are sorted by (index of the background box holding them, top, left). */
  function TextKey(b: IRect, paths: seq<IRect>): SortKey { SortKey(InBbox(b, paths), b.y0, b.x0) }

  /** path_bboxes.sort(key=lambda b: (b.y0, b.x0)): background boxes by top, then left. */
  function SortPaths(drawings: seq<IRect>): (r: seq<IRect>)
    ensures SortedBy(r, PathKey) && multiset(r) == multiset(drawings)
  {
    SortBySpec(drawings, PathKey);
    SortBy(drawings, PathKey)
  }

  /** bboxes.sort(key=lambda k: (in_bbox(k, path_bboxes), k.y0, k.x0)). */
  function SortTextBoxes(bs: seq<IRect>, paths: seq<IRect>): (r: seq<IRect>)
    ensures SortedBy(r, b => TextKey(b, paths)) && multiset(r) == multiset(bs)
  {
    SortBySpec(bs, b => TextKey(b, paths));
    SortBy(bs, b => TextKey(b, paths))
  }

  // ---------------------------------------------------------------------
  // extend_right
  // ---------------------------------------------------------------------

  /** One step of extend_right, on the list as earlier steps left it. */
  function ExtendAt(bs: seq<IRect>, i: nat, width: int, paths: seq<IRect>, verts: seq<IRect>, imgs: seq<IRect>): (r: seq<IRect>)
    requires i < |bs|
    ensures |r| == |bs| && forall k :: 0 <= k < |bs| && k != i ==> r[k] == bs[k]
  {
    var bb := bs[i];
    if InBbox(bb, paths) != 0 then bs
    else if InBbox(bb, imgs) != 0 then bs
    else
      var temp := bb.(x1 := width);
      if IntersectsBboxes(temp, paths + verts + imgs) then bs
      else if CanExtend(temp, bb, Present(bs), verts) then bs[i := temp]
      else bs
  }

  /** extend_right from position i on. */
  function ExtendFrom(bs: seq<IRect>, i: nat, width: int, paths: seq<IRect>, verts: seq<IRect>, imgs: seq<IRect>): (r: seq<IRect>)
    requires i <= |bs|
    ensures |r| == |bs|
    decreases |bs| - i
  {
    if i == |bs| then bs else ExtendFrom(ExtendAt(bs, i, width, paths, verts, imgs), i + 1, width, paths, verts, imgs)
  }

  /** extend_right, in place on the array of text boxes. */
  method ExtendRight(a: array<IRect>, width: int, paths: seq<IRect>, verts: seq<IRect>, imgs: seq<IRect>)
    modifies a
    ensures a[..] == ExtendFrom(old(a[..]), 0, width, paths, verts, imgs)
  {
    var i := 0;
    while i < a.Length
      invariant 0 <= i <= a.Length
      invariant ExtendFrom(a[..], i, width, paths, verts, imgs) == ExtendFrom(old(a[..]), 0, width, paths, verts, imgs)
    {
      var bb := a[i];
      if InBbox(bb, paths) != 0 || InBbox(bb, imgs) != 0 {
        i := i + 1;
        continue;
      }
      var temp := bb.(x1 := width);
      if IntersectsBboxes(temp, paths + verts + imgs) {
        i := i + 1;
        continue;
      }
      var check := CanExtend(temp, bb, Present(a[..]), verts);
      if check {
        a[i] := temp;
      }
      i := i + 1;
    }
  }

  /** The box at position k was stretched to the page width by its step. */
  predicate Stretched(orig: seq<IRect>, r: seq<IRect>, k: nat, width: int)
    requires k < |orig| && k < |r|
  {
    r[k] != orig[k] && r[k] == orig[k].(x1 := width)
  }

  /** What extend_right did at position k: kept the box, or stretched it when
      it lay in no background or image box and the stretched box crosses no
      background, vertical-text or image box. */
  predicate ExtendedOrKept(orig: seq<IRect>, r: seq<IRect>, k: nat, width: int, paths: seq<IRect>, verts: seq<IRect>, imgs: seq<IRect>)
    requires k < |orig| && k < |r|
  {
    r[k] == orig[k] ||
    (Stretched(orig, r, k, width) && InBbox(orig[k], paths) == 0 && InBbox(orig[k], imgs) == 0 &&
     !IntersectsBboxes(r[k], paths + verts + imgs))
  }

  /** No stretched box overlaps another box of the list, except where one of
      the two equals the other's original box (can_extend skips b == bb). */
  predicate NoOverlapAfter(orig: seq<IRect>, cur: seq<IRect>, upto: nat, width: int)
    requires |orig| == |cur| && upto <= |cur|
  {
    forall k, j :: 0 <= k < upto && 0 <= j < |cur| && j != k && Stretched(orig, cur, k, width) &&
      cur[j] != orig[k] && cur[k] != orig[j]
      ==> !Intersects(cur[k], cur[j])
  }

  /** The invariant extend_right keeps before step i: later boxes are
      untouched, earlier ones kept or stretched, and no stretch overlaps. */
  predicate ExtendInvariant(orig: seq<IRect>, cur: seq<IRect>, i: nat, width: int, paths: seq<IRect>, verts: seq<IRect>, imgs: seq<IRect>)
  {
    |cur| == |orig| && i <= |cur| &&
    (forall k :: i <= k < |cur| ==> cur[k] == orig[k]) &&
    (forall k :: 0 <= k < i ==> ExtendedOrKept(orig, cur, k, width, paths, verts, imgs)) &&
    NoOverlapAfter(orig, cur, i, width)
  }

  /** A step that stretches box i: what can_extend established about it. */
  lemma ExtendAtStretch(cur: seq<IRect>, i: nat, width: int, paths: seq<IRect>, verts: seq<IRect>, imgs: seq<IRect>)
    requires i < |cur| && ExtendAt(cur, i, width, paths, verts, imgs) != cur
    ensures ExtendAt(cur, i, width, paths, verts, imgs) == cur[i := cur[i].(x1 := width)]
    ensures InBbox(cur[i], paths) == 0 && InBbox(cur[i], imgs) == 0
    ensures !IntersectsBboxes(cur[i].(x1 := width), paths + verts + imgs)
    ensures forall j :: 0 <= j < |cur| ==> cur[j] == cur[i] || !Intersects(cur[i].(x1 := width), cur[j])
  {
    var temp := cur[i].(x1 := width);
    assert CanExtend(temp, cur[i], Present(cur), verts);
    forall j | 0 <= j < |cur| ensures cur[j] == cur[i] || !Intersects(temp, cur[j]) {
      assert Clear(temp, cur[i], Present(cur)[j]);
    }
  }

  lemma ExtendStepKeepsOverlap(orig: seq<IRect>, cur: seq<IRect>, i: nat, width: int, paths: seq<IRect>, verts: seq<IRect>, imgs: seq<IRect>)
    requires i < |cur| && ExtendInvariant(orig, cur, i, width, paths, verts, imgs)
    ensures NoOverlapAfter(orig, ExtendAt(cur, i, width, paths, verts, imgs), i + 1, width)
  {
    var next := ExtendAt(cur, i, width, paths, verts, imgs);
    if next != cur {
      ExtendAtStretch(cur, i, width, paths, verts, imgs);
      forall k, j | 0 <= k < i + 1 && 0 <= j < |next| && j != k && Stretched(orig, next, k, width) &&
          next[j] != orig[k] && next[k] != orig[j]
        ensures !Intersects(next[k], next[j])
      {
        if k == i {
          assert next[j] == cur[j];
        } else if j == i {
          assert next[k] == cur[k];
        } else {
          assert next[k] == cur[k] && next[j] == cur[j];
        }
      }
    } else {
      forall k, j | 0 <= k < i + 1 && 0 <= j < |next| && j != k && Stretched(orig, next, k, width) &&
          next[j] != orig[k] && next[k] != orig[j]
        ensures !Intersects(next[k], next[j])
      {
        assert k != i;
      }
    }
  }

  lemma ExtendStep(orig: seq<IRect>, cur: seq<IRect>, i: nat, width: int, paths: seq<IRect>, verts: seq<IRect>, imgs: seq<IRect>)
    requires i < |cur| && ExtendInvariant(orig, cur, i, width, paths, verts, imgs)
    ensures ExtendInvariant(orig, ExtendAt(cur, i, width, paths, verts, imgs), i + 1, width, paths, verts, imgs)
  {
    var next := ExtendAt(cur, i, width, paths, verts, imgs);
    if next != cur {
      ExtendAtStretch(cur, i, width, paths, verts, imgs);
    }
    forall k | 0 <= k < i + 1
      ensures ExtendedOrKept(orig, next, k, width, paths, verts, imgs)
    {
      if k < i {
        assert next[k] == cur[k];
        assert ExtendedOrKept(orig, cur, k, width, paths, verts, imgs);
      } else if next == cur {
        assert next[k] == orig[k];
      }
    }
    ExtendStepKeepsOverlap(orig, cur, i, width, paths, verts, imgs);
  }

  lemma {:induction false} ExtendFromProperties(orig: seq<IRect>, cur: seq<IRect>, i: nat, width: int, paths: seq<IRect>, verts: seq<IRect>, imgs: seq<IRect>)
    requires ExtendInvariant(orig, cur, i, width, paths, verts, imgs)
    ensures ExtendInvariant(orig, ExtendFrom(cur, i, width, paths, verts, imgs), |cur|, width, paths, verts, imgs)
    decreases |cur| - i
  {
    if i < |cur| {
      ExtendStep(orig, cur, i, width, paths, verts, imgs);
      ExtendFromProperties(orig, ExtendAt(cur, i, width, paths, verts, imgs), i + 1, width, paths, verts, imgs);
    }
  }

  /** extend_right keeps the length and every box, except that a box may get
      x1 set to the page width; it does so only for a box inside no
      background or image box whose stretched form crosses no background,
      vertical-text or image box, and no two boxes overlap through a
      stretch (up to can_extend's exemption of equal boxes). */
  lemma ExtendRightSpec(bs: seq<IRect>, width: int, paths: seq<IRect>, verts: seq<IRect>, imgs: seq<IRect>)
    ensures var r := ExtendFrom(bs, 0, width, paths, verts, imgs);
      |r| == |bs| &&
      (forall k :: 0 <= k < |r| ==> ExtendedOrKept(bs, r, k, width, paths, verts, imgs)) &&
      NoOverlapAfter(bs, r, |r|, width)
  {
    ExtendFromProperties(bs, bs, 0, width, paths, verts, imgs);
  }

  // ---------------------------------------------------------------------
  // The join pass
  // ---------------------------------------------------------------------

  /** The inner loop of the join pass: the first new block from position j on
      that bb may be merged into, with the merged box. */
  function FindJoin(nblocks: seq<IRect>, bb: IRect, j: nat, paths: seq<IRect>, verts: seq<IRect>): (r: Option<(nat, IRect)>)
    requires j <= |nblocks|
    ensures r.Some? ==> j <= r.value.0 < |nblocks| && r.value.1 == Union(bb, nblocks[r.value.0])
    decreases |nblocks| - j
  {
    if j == |nblocks| then None
    else
      var nbb := nblocks[j];
      if nbb.x1 < bb.x0 || bb.x1 < nbb.x0 then FindJoin(nblocks, bb, j + 1, paths, verts)
      else if InBbox(nbb, paths) != InBbox(bb, paths) then FindJoin(nblocks, bb, j + 1, paths, verts)
      else
        var temp := Union(bb, nbb);
        if CanExtend(temp, nbb, Present(nblocks), verts) then Some((j, temp))
        else FindJoin(nblocks, bb, j + 1, paths, verts)
  }

  /** All items from position i on are still present. */
  predicate PendingFrom(rest: seq<Option<IRect>>, i: nat)
  {
    forall k :: i <= k < |rest| ==> rest[k].Some?
  }

  /** One iteration of the join loop, for the old box at position i. */
  function JoinStep(nblocks: seq<IRect>, rest: seq<Option<IRect>>, i: nat, paths: seq<IRect>, verts: seq<IRect>)
    : (r: (seq<IRect>, seq<Option<IRect>>))
    requires i < |rest| && rest[i].Some?
    ensures |r.1| == |rest| && r.1[i].None? && forall k :: 0 <= k < |rest| && k != i ==> r.1[k] == rest[k]
  {
    var bb := rest[i].value;
    var found := FindJoin(nblocks, bb, 0, paths, verts);
    var nb1 := if found.Some? then nblocks else nblocks + [bb];
    var j := if found.Some? then found.value.0 else |nblocks|;
    var temp := if found.Some? then found.value.1 else bb;
    var nb2 := if CanExtend(temp, bb, rest, verts) then nb1[j := temp] else nb1 + [bb];
    (nb2, rest[i := None])
  }

  /** The join loop from position i on. */
  function JoinFrom(nblocks: seq<IRect>, rest: seq<Option<IRect>>, i: nat, paths: seq<IRect>, verts: seq<IRect>): seq<IRect>
    requires i <= |rest| && PendingFrom(rest, i)
    decreases |rest| - i
  {
    if i == |rest| then nblocks
    else
      var step := JoinStep(nblocks, rest, i, paths, verts);
      JoinFrom(step.0, step.1, i + 1, paths, verts)
  }

  /** The join pass: the first box starts the new blocks, the others are the old boxes. */
  function Join(boxes: seq<IRect>, paths: seq<IRect>, verts: seq<IRect>): seq<IRect>
    requires |boxes| > 0
  {
    JoinFrom([boxes[0]], Present(boxes[1..]), 0, paths, verts)
  }

  /** The inner loop of the join pass: scans the new blocks until bb can join one. */
  method SearchJoin(nblocks: seq<IRect>, bb: IRect, paths: seq<IRect>, verts: seq<IRect>)
    returns (check: bool, j: nat, temp: IRect)
    ensures FindJoin(nblocks, bb, 0, paths, verts) == if check then Some((j, temp)) else None
  {
    check, j, temp := false, 0, bb;
    var m := 0;
    while m < |nblocks| && !check
      invariant 0 <= m <= |nblocks|
      invariant FindJoin(nblocks, bb, 0, paths, verts) ==
                if check then Some((j, temp)) else FindJoin(nblocks, bb, m, paths, verts)
    {
      var nbb := nblocks[m];
      if nbb.x1 < bb.x0 || bb.x1 < nbb.x0 {
        // no horizontal overlap
      } else if InBbox(nbb, paths) != InBbox(bb, paths) {
        // different backgrounds
      } else {
        temp := Union(bb, nbb);
        check := CanExtend(temp, nbb, Present(nblocks), verts);
        j := m;
      }
      m := m + 1;
    }
  }

  /** The join pass as the source runs it: nblocks grows and is overwritten,
      and each old box is set to None once handled. */
  method JoinColumns(boxes: seq<IRect>, paths: seq<IRect>, verts: seq<IRect>) returns (nblocks: seq<IRect>)
    requires |boxes| > 0
    ensures nblocks == Join(boxes, paths, verts)
  {
    nblocks := [boxes[0]];
    var rest := new Option<IRect>[|boxes| - 1](k requires 0 <= k < |boxes| - 1 => Some(boxes[k + 1]));
    assert rest[..] == Present(boxes[1..]);
    var i := 0;
    while i < rest.Length
      invariant 0 <= i <= rest.Length
      invariant PendingFrom(rest[..], i)
      invariant JoinFrom(nblocks, rest[..], i, paths, verts) == Join(boxes, paths, verts)
    {
      nblocks := JoinOne(nblocks, rest, i, paths, verts);
      i := i + 1;
    }
  }

  /** One iteration of the join pass: bb joins the first new block it can
      extend, or is appended; then its old slot is set to None. */
  method JoinOne(nblocks0: seq<IRect>, rest: array<Option<IRect>>, i: nat, paths: seq<IRect>, verts: seq<IRect>)
    returns (nblocks: seq<IRect>)
    requires i < rest.Length && rest[i].Some?
    modifies rest
    ensures (nblocks, rest[..]) == JoinStep(nblocks0, old(rest[..]), i, paths, verts)
  {
    ghost var step := JoinStep(nblocks0, rest[..], i, paths, verts);
    nblocks := nblocks0;
    var bb := rest[i].value;
    var check, j, temp := SearchJoin(nblocks, bb, paths, verts);
    if !check {
      nblocks := nblocks + [bb];
      j := |nblocks| - 1;
      temp := nblocks[j];
    }
    check := CanExtend(temp, bb, rest[..], verts);
    if !check {
      nblocks := nblocks + [bb];
    } else {
      nblocks := nblocks[j := temp];
    }
    rest[i] := None;
    assert nblocks == step.0 && rest[..] == step.1;
  }

  /** Some new block contains x. */
  ghost predicate Covered(nblocks: seq<IRect>, x: IRect)
  {
    exists m :: 0 <= m < |nblocks| && Contains(nblocks[m], x)
  }

  lemma JoinStepCovers(nblocks: seq<IRect>, rest: seq<Option<IRect>>, i: nat, paths: seq<IRect>, verts: seq<IRect>, x: IRect)
    requires i < |rest| && rest[i].Some?
    requires !IsEmpty(x) && (Covered(nblocks, x) || x == rest[i].value)
    ensures Covered(JoinStep(nblocks, rest, i, paths, verts).0, x)
  {
    var bb := rest[i].value;
    var found := FindJoin(nblocks, bb, 0, paths, verts);
    var nb1 := if found.Some? then nblocks else nblocks + [bb];
    var j := if found.Some? then found.value.0 else |nblocks|;
    var temp := if found.Some? then found.value.1 else bb;
    var nb2 := JoinStep(nblocks, rest, i, paths, verts).0;
    if x == bb {
      if nb2 == nb1 + [bb] {
        assert Contains(nb2[|nb1|], x);
      } else {
        assert Contains(nb2[j], x);
      }
    } else {
      var m :| 0 <= m < |nblocks| && Contains(nblocks[m], x);
      assert nb1[m] == nblocks[m];
      if nb2 == nb1 + [bb] || m != j {
        assert nb2[m] == nblocks[m];
      } else {
        assert !IsEmpty(nblocks[m]) && Contains(nb2[m], nblocks[m]);
        ContainsTransitive(nb2[m], nblocks[m], x);
      }
    }
  }

  lemma {:induction false} JoinFromCovers(nblocks: seq<IRect>, rest: seq<Option<IRect>>, i: nat, paths: seq<IRect>, verts: seq<IRect>, x: IRect)
    requires i <= |rest| && PendingFrom(rest, i) && !IsEmpty(x)
    requires Covered(nblocks, x) || exists k :: i <= k < |rest| && rest[k] == Some(x)
    ensures Covered(JoinFrom(nblocks, rest, i, paths, verts), x)
    decreases |rest| - i
  {
    if i < |rest| {
      var step := JoinStep(nblocks, rest, i, paths, verts);
      if Covered(nblocks, x) || rest[i] == Some(x) {
        JoinStepCovers(nblocks, rest, i, paths, verts, x);
      } else {
        var k :| i <= k < |rest| && rest[k] == Some(x);
        assert step.1[k] == Some(x);
      }
      JoinFromCovers(step.0, step.1, i + 1, paths, verts, x);
    }
  }

  /** Every non-empty box handed to the join pass ends up inside some new block. */
  lemma JoinCoversEveryBox(boxes: seq<IRect>, paths: seq<IRect>, verts: seq<IRect>, k: nat)
    requires |boxes| > 0 && k < |boxes| && !IsEmpty(boxes[k])
    ensures Covered(Join(boxes, paths, verts), boxes[k])
  {
    var rest := Present(boxes[1..]);
    if k == 0 {
      assert Contains([boxes[0]][0], boxes[0]);
    } else {
      assert rest[k - 1] == Some(boxes[k]);
    }
    JoinFromCovers([boxes[0]], rest, 0, paths, verts, boxes[k]);
  }

  // ---------------------------------------------------------------------
  // column_boxes
  // ---------------------------------------------------------------------

  /** The text boxes after sorting and extend_right. */
  function ExtendedBoxes(p: ColumnPage, noImageText: bool): seq<IRect>
    requires BlocksHaveLines(p.blocks)
  {
    var paths := SortPaths(p.drawings);
    var rects := BlockRects(p.blocks, p.images, noImageText);
    ExtendFrom(SortTextBoxes(rects.0, paths), 0, Trunc(p.width), paths, rects.1, p.images)
  }

  /** column_boxes: the column boxes of a page, in reading order. */
  function ColumnBoxesOf(p: ColumnPage, noImageText: bool): Result<seq<IRect>, ColumnError>
    requires BlocksHaveLines(p.blocks)
  {
    var ext := ExtendedBoxes(p, noImageText);
    if ext == [] then Ok([])
    else Clean(Join(ext, SortPaths(p.drawings), BlockRects(p.blocks, p.images, noImageText).1))
  }

  /** column_boxes, pass by pass. */
  method ColumnBoxes(p: ColumnPage, noImageText: bool) returns (r: Result<seq<IRect>, ColumnError>)
    requires BlocksHaveLines(p.blocks)
    ensures r == ColumnBoxesOf(p, noImageText)
  {
    var paths := SortPaths(p.drawings);
    var bboxes, verts := MakeBlockRects(p.blocks, p.images, noImageText);
    bboxes := SortTextBoxes(bboxes, paths);
    var a := new IRect[|bboxes|](k requires 0 <= k < |bboxes| => bboxes[k]);
    assert a[..] == bboxes;
    ExtendRight(a, Trunc(p.width), paths, verts, p.images);
    bboxes := a[..];
    if bboxes == [] {
      return Ok([]);
    }
    var nblocks := JoinColumns(bboxes, paths, verts);
    r := CleanNBlocks(nblocks);
  }

  /** Every non-empty text box that survives extend_right lies inside some column box. */
  lemma ColumnBoxesCoverText(p: ColumnPage, noImageText: bool, k: nat)
    requires BlocksHaveLines(p.blocks)
    requires ColumnBoxesOf(p, noImageText).Ok?
    requires k < |ExtendedBoxes(p, noImageText)| && !IsEmpty(ExtendedBoxes(p, noImageText)[k])
    ensures exists c :: c in ColumnBoxesOf(p, noImageText).value && Contains(c, ExtendedBoxes(p, noImageText)[k])
  {
    var ext := ExtendedBoxes(p, noImageText);
    var joined := Join(ext, SortPaths(p.drawings), BlockRects(p.blocks, p.images, noImageText).1);
    JoinCoversEveryBox(ext, SortPaths(p.drawings), BlockRects(p.blocks, p.images, noImageText).1, k);
    var m :| 0 <= m < |joined| && Contains(joined[m], ext[k]);
    CleanKeepsBoxes(joined);
    assert joined[m] in Clean(joined).value;
  }
}
