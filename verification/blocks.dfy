/** Content blocks as the page-text provider delivers them (blocks of lines
    of spans), the text and font facts the classifier reads off a block, and
    the pure tests of DocumentAnalyzer in scripts/extract_annotations.py:
    caption prefixes, list markers, header and footer margins, formula and
    footnote heuristics, the title test and table containment. Every regular
    expression is stated as an explicit predicate over characters. */
module Blocks {
  import opened Geometry
  import opened TextUtil
  import opened FontSizes

  // ---------------------------------------------------------------------
  // Blocks
  // ---------------------------------------------------------------------

  /** A run of text in one font and size. */
  datatype Span = Span(text: string, font: string, size: real)

  datatype Line = Line(spans: seq<Span>)

  /** A page block: its box, its type (0 text, 1 image) and its lines
      (an image block has none). */
  datatype Block = Block(bbox: Rect, blockType: int, lines: seq<Line>)

  /** All spans of the lines, line after line. */
  function SpansOf(lines: seq<Line>): seq<Span>
  {
    if lines == [] then [] else SpansOf(lines[..|lines| - 1]) + lines[|lines| - 1].spans
  }

  lemma SpansOfStep(lines: seq<Line>, i: nat)
    requires i < |lines|
    ensures SpansOf(lines[..i + 1]) == SpansOf(lines[..i]) + lines[i].spans
  {
    assert lines[..i + 1][..i] == lines[..i];
  }

  // ---------------------------------------------------------------------
  // extract_text_from_block
  // ---------------------------------------------------------------------

  /** Every span's text followed by one blank. */
  function Joined(spans: seq<Span>): string
  {
    if spans == [] then [] else Joined(spans[..|spans| - 1]) + spans[|spans| - 1].text + " "
  }

  /** The block's text: the joined span texts, stripped. */
  function BlockText(b: Block): string
  {
    Strip(Joined(SpansOf(b.lines)))
  }

  /** The joined text is all whitespace exactly when every span text is. */
  lemma {:induction false} JoinedAllSpace(spans: seq<Span>)
    ensures AllSpace(Joined(spans)) <==> forall k :: 0 <= k < |spans| ==> AllSpace(spans[k].text)
  {
    if spans != [] {
      var init := spans[..|spans| - 1];
      var last := spans[|spans| - 1];
      JoinedAllSpace(init);
      var j := Joined(spans);
      assert j == Joined(init) + last.text + " ";
      if AllSpace(j) {
        forall k | 0 <= k < |last.text| ensures IsSpace(last.text[k]) {
          assert last.text[k] == j[|Joined(init)| + k];
        }
        forall k | 0 <= k < |Joined(init)| ensures IsSpace(Joined(init)[k]) {
          assert Joined(init)[k] == j[k];
        }
        forall k | 0 <= k < |spans| ensures AllSpace(spans[k].text) {
          if k < |spans| - 1 {
            assert spans[k] == init[k];
          }
        }
      } else {
        assert forall k :: 0 <= k < |init| ==> init[k] == spans[k];
      }
    }
  }

  /** A block has no text exactly when all its span texts are blank (so an
      image block, which has no lines, never has text). */
  lemma BlockTextEmpty(b: Block)
    ensures BlockText(b) == [] <==>
              forall k :: 0 <= k < |SpansOf(b.lines)| ==> AllSpace(SpansOf(b.lines)[k].text)
  {
    var spans := SpansOf(b.lines);
    JoinedAllSpace(spans);
  }

  /** extract_text_from_block: append each span's text and a blank, line by
      line, then strip. */
  method ExtractTextFromBlock(b: Block) returns (text: string)
    ensures text == BlockText(b)
  {
    var acc := "";
    var i := 0;
    while i < |b.lines|
      invariant i <= |b.lines|
      invariant acc == Joined(SpansOf(b.lines[..i]))
    {
      acc := AppendTexts(acc, SpansOf(b.lines[..i]), b.lines[i].spans);
      SpansOfStep(b.lines, i);
      i := i + 1;
    }
    assert b.lines[..i] == b.lines;
    text := Strip(acc);
  }

  /** The inner loop of extract_text_from_block over one line's spans. */
  method AppendTexts(acc: string, ghost done: seq<Span>, spans: seq<Span>) returns (out: string)
    requires acc == Joined(done)
    ensures out == Joined(done + spans)
  {
    out := acc;
    var j := 0;
    assert done + spans[..0] == done;
    while j < |spans|
      invariant j <= |spans|
      invariant out == Joined(done + spans[..j])
    {
      var next := done + spans[..j + 1];
      assert next[..|next| - 1] == done + spans[..j];
      out := out + spans[j].text + " ";
      j := j + 1;
    }
    assert spans[..j] == spans;
  }

  // ---------------------------------------------------------------------
  // Fonts and sizes of a block
  // ---------------------------------------------------------------------

  /** The font names of the spans, in order. */
  function FontNames(spans: seq<Span>): (r: seq<string>)
    ensures |r| == |spans|
  {
    if spans == [] then [] else FontNames(spans[..|spans| - 1]) + [spans[|spans| - 1].font]
  }

  /** The `fonts` list _is_formula and _is_footnote collect. */
  function FontsOf(b: Block): seq<string>
  {
    FontNames(SpansOf(b.lines))
  }

  /** The k-th font name is the font of the k-th span. */
  lemma {:induction false} FontNamesAt(spans: seq<Span>, k: nat)
    requires k < |spans|
    ensures FontNames(spans)[k] == spans[k].font
  {
    if k < |spans| - 1 {
      FontNamesAt(spans[..|spans| - 1], k);
    }
  }

  /** A name is in the font list of some spans exactly when one of them uses it. */
  lemma FontNamesMember(spans: seq<Span>, f: string)
    ensures f in FontNames(spans) <==> exists k :: 0 <= k < |spans| && spans[k].font == f
  {
    var fonts := FontNames(spans);
    if f in fonts {
      var k :| 0 <= k < |fonts| && fonts[k] == f;
      FontNamesAt(spans, k);
    }
    if exists k :: 0 <= k < |spans| && spans[k].font == f {
      var k :| 0 <= k < |spans| && spans[k].font == f;
      FontNamesAt(spans, k);
      assert fonts[k] == f;
    }
  }

  /** A font is in a block's font list exactly when some span uses it. */
  lemma FontsOfMember(b: Block, f: string)
    ensures f in FontsOf(b) <==> exists k :: 0 <= k < |SpansOf(b.lines)| && SpansOf(b.lines)[k].font == f
  {
    var spans := SpansOf(b.lines);
    FontNamesMember(spans, f);
    assert FontsOf(b) == FontNames(spans);
  }

  /** The loop of _is_formula / _is_footnote that collects the span fonts. */
  method CollectFonts(b: Block) returns (fonts: seq<string>)
    ensures fonts == FontsOf(b)
  {
    fonts := [];
    var i := 0;
    while i < |b.lines|
      invariant i <= |b.lines|
      invariant fonts == FontNames(SpansOf(b.lines[..i]))
    {
      var spans := b.lines[i].spans;
      var j := 0;
      assert SpansOf(b.lines[..i]) + spans[..0] == SpansOf(b.lines[..i]);
      while j < |spans|
        invariant j <= |spans|
        invariant fonts == FontNames(SpansOf(b.lines[..i]) + spans[..j])
      {
        var done := SpansOf(b.lines[..i]) + spans[..j + 1];
        assert done[..|done| - 1] == SpansOf(b.lines[..i]) + spans[..j];
        fonts := fonts + [spans[j].font];
        j := j + 1;
      }
      assert spans[..j] == spans;
      SpansOfStep(b.lines, i);
      i := i + 1;
    }
    assert b.lines[..i] == b.lines;
  }

  /** round(size) of every span, in order (get_base_font_size and the
      paragraph sample of extract_coordinates). */
  function RoundedSizes(spans: seq<Span>): (r: seq<int>)
    ensures |r| == |spans|
  {
    if spans == [] then [] else RoundedSizes(spans[..|spans| - 1]) + [RoundHalfEven(spans[|spans| - 1].size)]
  }

  function RoundedSizesOf(b: Block): seq<int>
  {
    RoundedSizes(SpansOf(b.lines))
  }

  /** The rounded sizes of a sequence of blocks, block after block. */
  function ParagraphSizes(blocks: seq<Block>): seq<int>
  {
    if blocks == [] then [] else ParagraphSizes(blocks[..|blocks| - 1]) + RoundedSizesOf(blocks[|blocks| - 1])
  }

  /** The inner loops over a paragraph block: append round(size) of every
      span to the sample and count the lines. */
  method AppendSizes(sample: seq<int>, b: Block) returns (out: seq<int>, lines: nat)
    ensures out == sample + RoundedSizesOf(b)
    ensures lines == |b.lines|
  {
    out := sample;
    lines := 0;
    var i := 0;
    while i < |b.lines|
      invariant i <= |b.lines| && lines == i
      invariant out == sample + RoundedSizes(SpansOf(b.lines[..i]))
    {
      var spans := b.lines[i].spans;
      out := AppendSpanSizes(out, spans);
      SpansOfStep(b.lines, i);
      RoundedSizesAppend(SpansOf(b.lines[..i]), spans);
      lines := lines + 1;
      i := i + 1;
    }
    assert b.lines[..i] == b.lines;
  }

  /** The span loop of AppendSizes. */
  method AppendSpanSizes(sample: seq<int>, spans: seq<Span>) returns (out: seq<int>)
    ensures out == sample + RoundedSizes(spans)
  {
    out := sample;
    var j := 0;
    while j < |spans|
      invariant j <= |spans|
      invariant out == sample + RoundedSizes(spans[..j])
    {
      RoundedSizesStep(spans, j);
      out := out + [RoundHalfEven(spans[j].size)];
      j := j + 1;
    }
    assert spans[..j] == spans;
  }

  lemma RoundedSizesStep(spans: seq<Span>, j: nat)
    requires j < |spans|
    ensures RoundedSizes(spans[..j + 1]) == RoundedSizes(spans[..j]) + [RoundHalfEven(spans[j].size)]
  {
    assert spans[..j + 1][..j] == spans[..j];
  }

  /** Rounding a concatenation rounds each part. */
  lemma {:induction false} RoundedSizesAppend(a: seq<Span>, b: seq<Span>)
    ensures RoundedSizes(a + b) == RoundedSizes(a) + RoundedSizes(b)
    decreases |b|
  {
    if b == [] {
      assert a + b == a;
    } else {
      var b' := b[..|b| - 1];
      RoundedSizesAppend(a, b');
      assert (a + b)[..|a + b| - 1] == a + b';
      assert (a + b)[|a + b| - 1] == b[|b| - 1];
    }
  }

  // ---------------------------------------------------------------------
  // _is_title
  // ---------------------------------------------------------------------

  /** `'bold' in font.lower()`. */
  predicate IsBoldFont(font: string)
  {
    ContainsSub(Lower(font), "bold")
  }

  /** Some span's font is a bold face. */
  predicate AnyBold(spans: seq<Span>)
  {
    exists k :: 0 <= k < |spans| && IsBoldFont(spans[k].font)
  }

  /** round(size) of the spans whose size is non-zero, in order. */
  function NonzeroSizes(spans: seq<Span>): (r: seq<int>)
    ensures |r| <= |spans|
  {
    if spans == [] then []
    else
      var prev := NonzeroSizes(spans[..|spans| - 1]);
      if spans[|spans| - 1].size != 0.0 then prev + [RoundHalfEven(spans[|spans| - 1].size)] else prev
  }

  /** The next span contributes its rounded size exactly when it is non-zero. */
  lemma NonzeroSizesStep(spans: seq<Span>, j: nat)
    requires j < |spans|
    ensures NonzeroSizes(spans[..j + 1]) ==
              NonzeroSizes(spans[..j]) + (if spans[j].size != 0.0 then [RoundHalfEven(spans[j].size)] else [])
  {
    assert spans[..j + 1][..j] == spans[..j];
  }

  /** A size occurs in the sample exactly when some non-zero span rounds to it. */
  lemma {:induction false} NonzeroSizesMembers(spans: seq<Span>, x: int)
    ensures x in NonzeroSizes(spans) <==>
              exists k :: 0 <= k < |spans| && spans[k].size != 0.0 && RoundHalfEven(spans[k].size) == x
    ensures NonzeroSizes(spans) == [] <==> forall k :: 0 <= k < |spans| ==> spans[k].size == 0.0
  {
    if spans != [] {
      var init := spans[..|spans| - 1];
      NonzeroSizesMembers(init, x);
      assert forall k :: 0 <= k < |init| ==> init[k] == spans[k];
      if x in NonzeroSizes(spans) && !(x in NonzeroSizes(init)) {
        assert spans[|spans| - 1].size != 0.0 && RoundHalfEven(spans[|spans| - 1].size) == x;
      }
    }
  }

  /** _is_title with the current baseline: no non-zero size means no title;
      otherwise a bold span and either a modal size at least base + 2 or a
      span of rounded size 26. */
  predicate IsTitle(b: Block, base: int)
  {
    var spans := SpansOf(b.lines);
    var sizes := NonzeroSizes(spans);
    sizes != [] && AnyBold(spans) && (Mode(sizes) >= base + 2 || 26 in sizes)
  }

  /** The title test in terms of the spans themselves. */
  lemma TitleIff(b: Block, base: int)
    ensures var ss := SpansOf(b.lines);
      IsTitle(b, base) <==>
        (exists k :: 0 <= k < |ss| && ss[k].size != 0.0) && AnyBold(ss) &&
        ((exists m :: IsFirstMode(NonzeroSizes(ss), m) && m >= base + 2) ||
         (exists k :: 0 <= k < |ss| && ss[k].size != 0.0 && RoundHalfEven(ss[k].size) == 26))
  {
    var ss := SpansOf(b.lines);
    var sizes := NonzeroSizes(ss);
    NonzeroSizesMembers(ss, 26);
    if sizes != [] {
      ModeIsFirstMode(sizes);
      forall m | IsFirstMode(sizes, m) ensures m == Mode(sizes) {
        FirstModeUnique(sizes, m, Mode(sizes));
      }
    }
  }

  /** The loop of _is_title: whether some font is bold, and the rounded
      non-zero sizes. */
  method TitleFacts(b: Block) returns (isBold: bool, sizes: seq<int>)
    ensures isBold == AnyBold(SpansOf(b.lines))
    ensures sizes == NonzeroSizes(SpansOf(b.lines))
  {
    isBold := false;
    sizes := [];
    var i := 0;
    while i < |b.lines|
      invariant i <= |b.lines|
      invariant isBold == AnyBold(SpansOf(b.lines[..i]))
      invariant sizes == NonzeroSizes(SpansOf(b.lines[..i]))
    {
      var spans := b.lines[i].spans;
      isBold, sizes := TitleFactsOfSpans(isBold, sizes, spans);
      SpansOfStep(b.lines, i);
      BoldAppend(SpansOf(b.lines[..i]), spans);
      NonzeroSizesAppend(SpansOf(b.lines[..i]), spans);
      i := i + 1;
    }
    assert b.lines[..i] == b.lines;
  }

  /** The span loop of _is_title, continuing from the facts gathered so far. */
  method TitleFactsOfSpans(bold0: bool, sizes0: seq<int>, spans: seq<Span>) returns (isBold: bool, sizes: seq<int>)
    ensures isBold == (bold0 || AnyBold(spans))
    ensures sizes == sizes0 + NonzeroSizes(spans)
  {
    isBold, sizes := bold0, sizes0;
    var j := 0;
    while j < |spans|
      invariant j <= |spans|
      invariant isBold == (bold0 || AnyBold(spans[..j]))
      invariant sizes == sizes0 + NonzeroSizes(spans[..j])
    {
      NonzeroSizesStep(spans, j);
      BoldStep(spans[..j], spans[j]);
      assert spans[..j] + [spans[j]] == spans[..j + 1];
      if !isBold {
        isBold := IsBoldFont(spans[j].font);
      }
      if spans[j].size != 0.0 {
        sizes := sizes + [RoundHalfEven(spans[j].size)];
      }
      j := j + 1;
    }
    assert spans[..j] == spans;
  }

  lemma BoldAppend(a: seq<Span>, b: seq<Span>)
    ensures AnyBold(a + b) <==> AnyBold(a) || AnyBold(b)
  {
    var t := a + b;
    if AnyBold(b) {
      var k :| 0 <= k < |b| && IsBoldFont(b[k].font);
      assert t[|a| + k] == b[k];
    }
    if AnyBold(a) {
      var k :| 0 <= k < |a| && IsBoldFont(a[k].font);
      assert t[k] == a[k];
    }
    if AnyBold(t) {
      var k :| 0 <= k < |t| && IsBoldFont(t[k].font);
      if k < |a| { assert t[k] == a[k]; } else { assert t[k] == b[k - |a|]; }
    }
  }

  lemma {:induction false} NonzeroSizesAppend(a: seq<Span>, b: seq<Span>)
    ensures NonzeroSizes(a + b) == NonzeroSizes(a) + NonzeroSizes(b)
    decreases |b|
  {
    if b == [] {
      assert a + b == a;
    } else {
      var b' := b[..|b| - 1];
      NonzeroSizesAppend(a, b');
      assert (a + b)[..|a + b| - 1] == a + b';
      assert (a + b)[|a + b| - 1] == b[|b| - 1];
    }
  }

  lemma BoldStep(spans: seq<Span>, s: Span)
    ensures AnyBold(spans + [s]) <==> AnyBold(spans) || IsBoldFont(s.font)
  {
    var t := spans + [s];
    assert t[|spans|] == s;
    assert forall k :: 0 <= k < |spans| ==> t[k] == spans[k];
  }

  // ---------------------------------------------------------------------
  // Captions
  // ---------------------------------------------------------------------

  /** The alternatives of the table-caption pattern, in pattern order. */
  const TableWords: seq<string> := ["Табл.", "Таблица", "Table", "Таблица.", "Табл"]

  /** The alternatives of the figure-caption pattern, in pattern order. */
  const PictureWords: seq<string> := ["Рис.", "Рисунок", "Figure", "Рис", "Рисунок."]

  /** re.match of the caption pattern, ignoring case: one alternative is a
      prefix of the text (the trailing `\s*\d*` also matches nothing). */
  predicate StartsWithAnyIgnoreCase(text: string, words: seq<string>)
  {
    exists k :: 0 <= k < |words| && StartsWithIgnoreCase(text, words[k])
  }

  predicate IsTableSignature(text: string)
  {
    StartsWithAnyIgnoreCase(text, TableWords)
  }

  predicate IsPictureSignature(text: string)
  {
    StartsWithAnyIgnoreCase(text, PictureWords)
  }

  /** A case-insensitive prefix match implies one for every shorter prefix. */
  lemma StartsWithShorter(text: string, p: string, q: string)
    requires StartsWithIgnoreCase(text, p) && q <= p
    ensures StartsWithIgnoreCase(text, q)
  {
    assert forall k :: 0 <= k < |q| ==> q[k] == p[k];
  }

  /** A table caption is text beginning with "Табл" or "Table", in any case;
      no number has to follow. */
  lemma TableSignatureIff(text: string)
    ensures IsTableSignature(text) <==>
              StartsWithIgnoreCase(text, "Табл") || StartsWithIgnoreCase(text, "Table")
  {
    if IsTableSignature(text) {
      var k :| 0 <= k < |TableWords| && StartsWithIgnoreCase(text, TableWords[k]);
      if k != 2 {
        StartsWithShorter(text, TableWords[k], "Табл");
      }
    }
    if StartsWithIgnoreCase(text, "Табл") {
      assert StartsWithIgnoreCase(text, TableWords[4]);
    }
    if StartsWithIgnoreCase(text, "Table") {
      assert StartsWithIgnoreCase(text, TableWords[2]);
    }
  }

  /** A figure caption is text beginning with "Рис" or "Figure", in any case. */
  lemma PictureSignatureIff(text: string)
    ensures IsPictureSignature(text) <==>
              StartsWithIgnoreCase(text, "Рис") || StartsWithIgnoreCase(text, "Figure")
  {
    if IsPictureSignature(text) {
      var k :| 0 <= k < |PictureWords| && StartsWithIgnoreCase(text, PictureWords[k]);
      if k != 2 {
        StartsWithShorter(text, PictureWords[k], "Рис");
      }
    }
    if StartsWithIgnoreCase(text, "Рис") {
      assert StartsWithIgnoreCase(text, PictureWords[3]);
    }
    if StartsWithIgnoreCase(text, "Figure") {
      assert StartsWithIgnoreCase(text, PictureWords[2]);
    }
  }

  // ---------------------------------------------------------------------
  // Lists
  // ---------------------------------------------------------------------

  /** `^\d+\.\s`: one or more digits, a dot, a whitespace character. */
  predicate IsNumberedList(text: string)
  {
    exists n :: 1 <= n && n + 1 < |text| && AllDecimal(text[..n]) && text[n] == '.' && IsSpace(text[n + 1])
  }

  /** The numbered-list pattern needs no backtracking: the digit run is the
      longest one at the start. */
  lemma NumberedListGreedy(text: string)
    ensures IsNumberedList(text) <==> LeadingNumberDot(text)
  {
    if IsNumberedList(text) {
      NumberedListIsLeading(text);
    }
    if LeadingNumberDot(text) {
      var m := LeadingDecimals(text);
      assert AllDecimal(text[..m]);
    }
  }

  /** The whole leading digit run is followed by a dot and a whitespace character. */
  predicate LeadingNumberDot(text: string)
  {
    var n := LeadingDecimals(text);
    1 <= n && n + 1 < |text| && text[n] == '.' && IsSpace(text[n + 1])
  }

  /** A match of the numbered-list pattern uses the whole leading digit run. */
  lemma NumberedListIsLeading(text: string)
    requires IsNumberedList(text)
    ensures LeadingNumberDot(text)
  {
    var n :| 1 <= n && n + 1 < |text| && AllDecimal(text[..n]) && text[n] == '.' && IsSpace(text[n + 1]);
    assert !IsDecimal(text[n]);
    LeadingDecimalsExact(text, n);
  }

  /** The list markers of the marked-list pattern. */
  const Markers: set<char> := {'-', '•', '*'}

  /** `^(\s*[-•*]\s+)`: optional whitespace, a marker, a whitespace character. */
  predicate IsMarkedList(text: string)
  {
    exists i :: 0 <= i && i + 1 < |text| && AllSpace(text[..i]) && text[i] in Markers && IsSpace(text[i + 1])
  }

  lemma MarkerNotSpace(c: char)
    requires c in Markers
    ensures !IsSpace(c)
  {
  }

  /** The marker is the first non-blank character. */
  lemma MarkedListGreedy(text: string)
    ensures IsMarkedList(text) <==>
              var i := LeadingSpaces(text);
              i + 1 < |text| && text[i] in Markers && IsSpace(text[i + 1])
  {
    var m := LeadingSpaces(text);
    if IsMarkedList(text) {
      var i :| 0 <= i && i + 1 < |text| && AllSpace(text[..i]) && text[i] in Markers && IsSpace(text[i + 1]);
      MarkerNotSpace(text[i]);
      LeadingSpacesExact(text, i);
    }
  }

  // ---------------------------------------------------------------------
  // Header and footer
  // ---------------------------------------------------------------------

  /** _is_header: the top edge lies within 50 units of the top of the page. */
  predicate IsHeader(bbox: Rect)
  {
    bbox.y0 < 50.0
  }

  /** _is_footer: the TOP edge lies within 50 units of the page bottom. */
  predicate IsFooter(bbox: Rect, pageHeight: real)
  {
    bbox.y0 > pageHeight - 50.0
  }

  /** On a page at least 100 units high no block is both header and footer,
      and a footer's top edge is below the header band. */
  lemma HeaderFooterDisjoint(bbox: Rect, pageHeight: real)
    requires pageHeight >= 100.0
    ensures !(IsHeader(bbox) && IsFooter(bbox, pageHeight))
    ensures IsFooter(bbox, pageHeight) ==> bbox.y0 > 50.0
  {
  }

  // ---------------------------------------------------------------------
  // _is_formula
  // ---------------------------------------------------------------------

  const MathOperators: set<char> := {'+', '-', '*', '/', '=', '(', ')'}

  const MathSymbols: set<char> :=
    {'∪', '∩', '≈', '≠', '∞', '∑', '∏', '√', '∂', '∇', '⊕', '⊗', '≡', '⊂', '∈', '∉', '∫'}

  const GreekLetters: set<char> :=
    {'α', 'β', 'γ', 'δ', 'ε', 'ζ', 'η', 'θ', 'ι', 'κ', 'λ', 'μ',
     'ν', 'ξ', 'ο', 'π', 'ρ', 'σ', 'τ', 'υ', 'φ', 'χ', 'ψ', 'ω'}

  /** The operator class of the advanced pattern: + - * / ^ ( ). */
  const ExpressionOperators: set<char> := {'+', '-', '*', '/', '^', '(', ')'}

  const MathKeywords: seq<string> := ["log", "ln", "∫", "∑", "∏", "lim"]

  // The first alternative of the advanced pattern matches at position i:
  // digits and one of + - * / ^ ( ), one or more times, then digits.
  predicate OperatorChainAt(t: string, i: nat)
    decreases |t| - i
  {
    exists j :: i < j && j + 1 < |t| && AllDecimal(t[i..j]) && t[j] in ExpressionOperators &&
      (IsDecimal(t[j + 1]) || OperatorChainAt(t, j + 1))
  }

  /** The second alternative, digits, a dot, digits, matches at position i. */
  predicate DecimalNumberAt(t: string, i: nat)
  {
    exists j :: i < j && j + 1 < |t| && AllDecimal(t[i..j]) && t[j] == '.' && IsDecimal(t[j + 1])
  }

  /** The search for the advanced pattern, as written: one of its two
      alternatives matches at some position. */
  predicate AdvancedMath(text: string)
  {
    exists i :: 0 <= i < |text| && (OperatorChainAt(text, i) || DecimalNumberAt(text, i))
  }

  /** A digit, an operator or a dot, and a digit side by side. */
  predicate DigitOperatorDigit(text: string)
  {
    exists i :: 0 <= i && i + 2 < |text| && IsDecimal(text[i]) &&
      (text[i + 1] in ExpressionOperators || text[i + 1] == '.') && IsDecimal(text[i + 2])
  }

  /** Every match of the operator chain ends in a digit, an operator and a digit. */
  lemma {:induction false} ChainHasTriple(t: string, i: nat)
    requires OperatorChainAt(t, i)
    ensures DigitOperatorDigit(t)
    decreases |t| - i
  {
    var j :| i < j && j + 1 < |t| && AllDecimal(t[i..j]) && t[j] in ExpressionOperators &&
      (IsDecimal(t[j + 1]) || OperatorChainAt(t, j + 1));
    DigitBefore(t, i, j);
    if !IsDecimal(t[j + 1]) {
      ChainHasTriple(t, j + 1);
    }
  }

  /** Every match of the advanced pattern contains a digit, an operator or
      a dot, and a digit side by side. */
  lemma MatchHasTriple(text: string)
    requires AdvancedMath(text)
    ensures DigitOperatorDigit(text)
  {
    var i :| 0 <= i < |text| && (OperatorChainAt(text, i) || DecimalNumberAt(text, i));
    if OperatorChainAt(text, i) {
      ChainHasTriple(text, i);
    } else {
      DecimalHasTriple(text, i);
    }
  }

  /** A decimal number ends its integer part with a digit, then the dot and a digit. */
  lemma DecimalHasTriple(t: string, i: nat)
    requires DecimalNumberAt(t, i)
    ensures DigitOperatorDigit(t)
  {
    var j :| i < j && j + 1 < |t| && AllDecimal(t[i..j]) && t[j] == '.' && IsDecimal(t[j + 1]);
    DigitBefore(t, i, j);
  }

  /** A non-empty run of digits ends in a digit. */
  lemma DigitBefore(t: string, i: nat, j: nat)
    requires i < j <= |t| && AllDecimal(t[i..j])
    ensures IsDecimal(t[j - 1])
  {
    assert t[i..j][j - 1 - i] == t[j - 1];
  }

  /** A digit, an operator or a dot, and a digit side by side are a match. */
  lemma TripleIsMatch(text: string)
    requires DigitOperatorDigit(text)
    ensures AdvancedMath(text)
  {
    var k :| 0 <= k && k + 2 < |text| && IsDecimal(text[k]) &&
      (text[k + 1] in ExpressionOperators || text[k + 1] == '.') && IsDecimal(text[k + 2]);
    assert AllDecimal(text[k..k + 1]);
    if text[k + 1] == '.' {
      assert DecimalNumberAt(text, k);
    } else {
      assert OperatorChainAt(text, k);
    }
  }

  /** The search for the advanced pattern succeeds exactly when a digit,
      an operator or a dot, and a digit stand side by side. */
  lemma AdvancedMathIff(text: string)
    ensures AdvancedMath(text) <==> DigitOperatorDigit(text)
  {
    if AdvancedMath(text) {
      MatchHasTriple(text);
    }
    if DigitOperatorDigit(text) {
      TripleIsMatch(text);
    }
  }

  /** _is_formula, check by check: the CambriaMath font, an operator together
      with a digit (str.isdigit), a math symbol or Greek letter, an
      arithmetic expression or decimal number, a keyword anywhere. */
  predicate IsFormula(text: string, fonts: seq<string>)
  {
    "CambriaMath" in fonts ||
    (ContainsAnyOf(text, MathOperators) && exists k :: 0 <= k < |text| && IsDigitChar(text[k])) ||
    ContainsAnyOf(text, MathSymbols) || ContainsAnyOf(text, GreekLetters) ||
    AdvancedMath(text) ||
    exists k :: 0 <= k < |MathKeywords| && ContainsSub(text, MathKeywords[k])
  }

  /** `needle in s` holds when the needle occurs at position i. */
  lemma {:induction false} ContainsSubAt(s: string, needle: string, i: nat)
    requires i + |needle| <= |s| && s[i..i + |needle|] == needle
    ensures ContainsSub(s, needle)
    decreases i
  {
    if i == 0 {
      assert s[..|needle|] == needle;
    } else {
      assert s[1..][i - 1..i - 1 + |needle|] == s[i..i + |needle|];
      ContainsSubAt(s[1..], needle, i - 1);
    }
  }

  /** The keyword test is a plain substring search: an ordinary word that
      contains "log" or "ln" marks its block as a formula. */
  lemma FormulaKeywordInsideWord(pre: string, post: string, fonts: seq<string>)
    ensures IsFormula(pre + "log" + post, fonts)
    ensures IsFormula(pre + "ln" + post, fonts)
  {
    var s1, s2 := pre + "log" + post, pre + "ln" + post;
    assert s1[|pre|..|pre| + 3] == "log";
    ContainsSubAt(s1, "log", |pre|);
    assert s2[|pre|..|pre| + 2] == "ln";
    ContainsSubAt(s2, "ln", |pre|);
    assert ContainsSub(s1, MathKeywords[0]);
    assert ContainsSub(s2, MathKeywords[1]);
  }

  /** A digit directly followed by '.' and a digit, as in any decimal
      number, makes a formula. */
  lemma DecimalNumberIsFormula(text: string, fonts: seq<string>, i: nat)
    requires i + 2 < |text| && IsDecimal(text[i]) && text[i + 1] == '.' && IsDecimal(text[i + 2])
    ensures IsFormula(text, fonts)
  {
    assert AllDecimal(text[i..i + 1]);
    assert DecimalNumberAt(text, i);
  }

  // ---------------------------------------------------------------------
  // _is_footnote
  // ---------------------------------------------------------------------

  /** `^\[\^?\d+\]`: an opening bracket, an optional caret, digits, a closing bracket. */
  predicate BracketNumberAtStart(t: string)
  {
    exists i, j :: 1 <= i <= 2 && i < j < |t| && t[0] == '[' && (i == 2 ==> t[1] == '^') &&
      AllDecimal(t[i..j]) && t[j] == ']'
  }

  /** `\d+c` for a closing character c in cs, anywhere. */
  predicate DigitsThen(t: string, cs: set<char>)
  {
    exists i, j :: 0 <= i < j < |t| && AllDecimal(t[i..j]) && t[j] in cs
  }

  /** `\d+\.$`: the text ends in digits and a dot (the text is stripped, so
      `$` never stands before a final newline). */
  predicate EndsWithNumberDot(t: string)
  {
    |t| >= 2 && t[|t| - 1] == '.' &&
    var body := t[..|t| - 1];
    exists i :: 0 <= i < |body| && AllDecimal(body[i..])
  }

  /** `\[\d+\]` anywhere. */
  predicate BracketNumber(t: string)
  {
    exists i, j :: 0 <= i && i + 1 < j < |t| && t[i] == '[' && AllDecimal(t[i + 1..j]) && t[j] == ']'
  }

  const Closers: set<char> := {')', '.', ']'}

  /** The footnote-number pattern, alternative by alternative. */
  predicate FootnoteNumber(t: string)
  {
    BracketNumberAtStart(t) || DigitsThen(t, {')'}) || EndsWithNumberDot(t) ||
    BracketNumber(t) || DigitsThen(t, Closers)
  }

  /** A digit immediately followed by ')', '.' or ']'. */
  predicate DigitBeforeCloser(t: string)
  {
    exists i :: 0 <= i && i + 1 < |t| && IsDecimal(t[i]) && t[i + 1] in Closers
  }

  lemma DigitsThenCloser(t: string, i: int, j: int)
    requires 0 <= i < j < |t| && AllDecimal(t[i..j]) && t[j] in Closers
    ensures DigitBeforeCloser(t)
  {
    assert t[j - 1] == t[i..j][j - 1 - i];
  }

  lemma BracketAtStartHasCloser(t: string)
    requires BracketNumberAtStart(t)
    ensures DigitBeforeCloser(t)
  {
    var i, j :| 1 <= i <= 2 && i < j < |t| && t[0] == '[' && (i == 2 ==> t[1] == '^') &&
      AllDecimal(t[i..j]) && t[j] == ']';
    DigitsThenCloser(t, i, j);
  }

  lemma DigitsThenHasCloser(t: string, cs: set<char>)
    requires DigitsThen(t, cs) && cs <= Closers
    ensures DigitBeforeCloser(t)
  {
    var i, j :| 0 <= i < j < |t| && AllDecimal(t[i..j]) && t[j] in cs;
    DigitsThenCloser(t, i, j);
  }

  lemma NumberDotHasCloser(t: string)
    requires EndsWithNumberDot(t)
    ensures DigitBeforeCloser(t)
  {
    var body := t[..|t| - 1];
    var i :| 0 <= i < |body| && AllDecimal(body[i..]);
    assert t[i..|t| - 1] == body[i..];
    DigitsThenCloser(t, i, |t| - 1);
  }

  lemma BracketNumberHasCloser(t: string)
    requires BracketNumber(t)
    ensures DigitBeforeCloser(t)
  {
    var i, j :| 0 <= i && i + 1 < j < |t| && t[i] == '[' && AllDecimal(t[i + 1..j]) && t[j] == ']';
    DigitsThenCloser(t, i + 1, j);
  }

  /** The five footnote alternatives together say no more than the last one:
      somewhere a digit is followed by ')', '.' or ']'. */
  lemma FootnoteNumberIff(t: string)
    ensures FootnoteNumber(t) <==> DigitBeforeCloser(t)
  {
    if FootnoteNumber(t) {
      FootnoteNumberHasCloser(t);
    }
    if DigitBeforeCloser(t) {
      var i :| 0 <= i && i + 1 < |t| && IsDecimal(t[i]) && t[i + 1] in Closers;
      assert AllDecimal(t[i..i + 1]);
      assert DigitsThen(t, Closers);
    }
  }

  /** Each of the five alternatives puts a digit right before a closer. */
  lemma FootnoteNumberHasCloser(t: string)
    requires FootnoteNumber(t)
    ensures DigitBeforeCloser(t)
  {
    if BracketNumberAtStart(t) {
      BracketAtStartHasCloser(t);
    } else if DigitsThen(t, {')'}) {
      DigitsThenHasCloser(t, {')'});
    } else if EndsWithNumberDot(t) {
      NumberDotHasCloser(t);
    } else if BracketNumber(t) {
      BracketNumberHasCloser(t);
    } else {
      DigitsThenHasCloser(t, Closers);
    }
  }

  const Superscripts: set<char> := {'¹', '²', '³', '⁴', '⁵', '⁶', '⁷', '⁸', '⁹'}

  /** Position p of t is a word boundary (`\b`). */
  predicate BoundaryAt(t: string, p: int)
    requires 0 <= p <= |t|
  {
    (p < |t| && IsWordChar(t[p])) != (0 < p && IsWordChar(t[p - 1]))
  }

  /** The italic pattern `\b[...]*[...]*\b[\s-]*[...]*` can match the empty
      string at a word boundary and cannot match anywhere else, so a search
      succeeds exactly at a word boundary. */
  predicate ItalicPatternFound(t: string)
  {
    exists p :: 0 <= p <= |t| && BoundaryAt(t, p)
  }

  /** A word boundary exists exactly when some character is a word character. */
  lemma ItalicPatternIff(t: string)
    ensures ItalicPatternFound(t) <==> exists k :: 0 <= k < |t| && IsWordChar(t[k])
  {
    if exists k :: 0 <= k < |t| && IsWordChar(t[k]) {
      var k :| 0 <= k < |t| && IsWordChar(t[k]);
      WordStartBefore(t, k);
    }
  }

  /** Walking left from a word character reaches the start of its word. */
  lemma {:induction false} WordStartBefore(t: string, k: nat)
    requires k < |t| && IsWordChar(t[k])
    ensures ItalicPatternFound(t)
    decreases k
  {
    if k == 0 || !IsWordChar(t[k - 1]) {
      assert BoundaryAt(t, k);
    } else {
      WordStartBefore(t, k - 1);
    }
  }

  /** _is_footnote: a footnote number in the stripped text, a superscript
      digit, a top edge in the lowest tenth of the page, or a word together
      with a span font named exactly "italic" or "underline". */
  predicate IsFootnote(text: string, fonts: seq<string>, top: real, pageHeight: real)
  {
    FootnoteNumber(Strip(text)) ||
    ContainsAnyOf(text, Superscripts) ||
    top > 0.9 * pageHeight ||
    (ItalicPatternFound(text) && ("italic" in fonts || "underline" in fonts))
  }

  /** The footnote test without the patterns. */
  lemma FootnoteIff(text: string, fonts: seq<string>, top: real, pageHeight: real)
    ensures IsFootnote(text, fonts, top, pageHeight) <==>
              DigitBeforeCloser(Strip(text)) || ContainsAnyOf(text, Superscripts) || top > 0.9 * pageHeight ||
              ((exists k :: 0 <= k < |text| && IsWordChar(text[k])) && ("italic" in fonts || "underline" in fonts))
  {
    FootnoteNumberIff(Strip(text));
    ItalicPatternIff(text);
  }

  /** The style test needs a font named exactly "italic" or "underline": a
      block set only in faces such as "Times-Italic" is a footnote only by
      its number, a superscript or its position. */
  lemma ItalicNeedsExactName(text: string, fonts: seq<string>, top: real, pageHeight: real)
    requires forall k :: 0 <= k < |fonts| ==> fonts[k] != "italic" && fonts[k] != "underline"
    ensures IsFootnote(text, fonts, top, pageHeight) <==>
              FootnoteNumber(Strip(text)) || ContainsAnyOf(text, Superscripts) || top > 0.9 * pageHeight
  {
  }

  // ---------------------------------------------------------------------
  // _is_within_table
  // ---------------------------------------------------------------------

  /** _is_within_table: the block box lies inside the table box, coordinate-wise. */
  predicate IsWithinTable(b: Rect, t: Rect)
  {
    b.x0 >= t.x0 && b.x1 <= t.x1 && b.y0 >= t.y0 && b.y1 <= t.y1
  }

  /** Containment survives the truncation of both boxes to integers. */
  lemma WithinTableConverted(b: Rect, t: Rect)
    requires IsWithinTable(b, t)
    ensures var cb, ct := ConvertCoordinates(b), ConvertCoordinates(t);
      cb.x0 >= ct.x0 && cb.x1 <= ct.x1 && cb.y0 >= ct.y0 && cb.y1 <= ct.y1
  {
    TruncMonotone(t.x0, b.x0);
    TruncMonotone(b.x1, t.x1);
    TruncMonotone(t.y0, b.y0);
    TruncMonotone(b.y1, t.y1);
  }

  /** `any(_is_within_table(bbox, t) for t in tables)`. */
  predicate InAnyTable(b: Rect, tables: seq<Rect>)
  {
    exists k :: 0 <= k < |tables| && IsWithinTable(b, tables[k])
  }
}
