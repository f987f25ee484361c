# PDF layout annotation engine, modelled in Dafny

This project models the annotation engine of `scripts/extract_annotations.py`. The engine reads the pages of a PDF and labels every content block. Each block's box goes into one of thirteen lists: title, paragraph, table, picture, table caption, picture caption, numbered list, marked list, header, footer, footnote, formula and multi-column text.

It is made of three parts, all modelled here.

- **The document analyzer.** `DocumentAnalyzer` is a class whose `baseFontSize` field holds the baseline paragraph font size, or `None`.
  - `ExtractCoordinates` runs the page loop. It skips blocks that lie inside a table box or have no text and are not images. Every other block goes through a first-match chain of tests: picture, table caption, picture caption, header, numbered list, marked list, footer, formula, footnote, title, and paragraph otherwise.
  - The baseline is set from page 0 while it is `None`. After each paragraph block it is re-estimated from the page's paragraph font-size sample when the running paragraph line count exceeds 50 and that sample holds more than 5 sizes. The line count carries over from page to page and restarts at 0 after a re-estimate; the sample starts empty on every page.
- **The column detector** `column_boxes`. It works over integer rectangles in five passes:
  - build block rectangles;
  - sort them;
  - stretch boxes to the right page edge where possible (`extend_right`, in place on an array);
  - join boxes into column blocks;
  - clean the result (`clean_nblocks`).
- **The multi-column scan** `check_multi_column_text`. It runs the column detector on every page and keeps neighbouring column boxes that match a fixed two-column or three-column template.

Modules:

| file | module | contents |
|---|---|---|
| `wrappers.dfy` | `Wrappers` | `Option`, `Result` |
| `geometry.dfy` | `Geometry` | float and integer rectangles, `int()` truncation, empty/intersect/contain/union |
| `text.dfy` | `TextUtil` | character classes, lower-casing, `strip`, decimal printing |
| `font_sizes.dfy` | `FontSizes` | `round()` (half to even), the `Counter.most_common` mode, the baseline functions |
| `sorting.dfy` | `Sorting` | a stable sort by key, standing for Python's `list.sort`/`sorted` |
| `blocks.dfy` | `Blocks` | blocks, lines and spans; block text; every `_is_*` predicate |
| `clean.dfy` | `CleanBlocks` | `clean_nblocks` |
| `columns.dfy` | `Columns` | `column_boxes` and its nested helpers |
| `multicolumn.dfy` | `MultiColumn` | `check_multi_column_text` |
| `analyzer.dfy` | `Analyzer` | the region chain, the block and page loops, the `DocumentAnalyzer` class |

How the state-changing parts are specified:

- Each imperative routine is a method.
  - Its `ensures` ties its result, or its new state, to a specification function over the inputs, for example `ScanBlocks`, `AnnotateUpTo`, `ExtendFrom`, `JoinFrom`, `DelDupsFrom` or `SortRunsFrom`.
  - The properties the source promises are then proved as lemmas about those functions.
- The page and block loops are specified over a `Tests` record: skip, classify, and feed-the-baseline. The analyzer instantiates it with `SourceTests`, which holds the source's own predicates. The counting and framing lemmas hold for any tests, so they do not have to unfold the classifier.

Three details of the classifier:

- the header and footer margins are 50 units (a box is a header when its top edge is above 50, a footer when its top edge is below the page height minus 50);
- the footer test reads the top edge of the box, not the bottom;
- the paragraph size sample is cleared only at the start of each page, not when the baseline is re-estimated.

## Model

| member | source | states |
|---|---|---|
| Geometry.Trunc | scripts/extract_annotations.py:394-396 | `int()` on a coordinate: x with its fractional part dropped, rounding toward zero |
| Geometry.TruncOfUnique | scripts/extract_annotations.py:394-396 | that truncation property determines the integer uniquely |
| Geometry.TruncMonotone | scripts/extract_annotations.py:394-396 | truncation is monotone |
| Geometry.ConvertCoordinates | scripts/extract_annotations.py:394-396 | `_convert_coordinates` truncates each of the four coordinates |
| Geometry.ConvertIntegral | scripts/extract_annotations.py:394-396 | a box with integer corners is left unchanged |
| Geometry.Union | scripts/extract_annotations.py:179-185 | `srect \|= lbbox`: the union contains both non-empty operands, is empty only when both are, and for two non-empty boxes is the smallest box containing both |
| Geometry.TouchingIsDisjoint | scripts/extract_annotations.py:63-68 | boxes that only share an edge do not intersect |
| Geometry.IntersectsGrows | scripts/extract_annotations.py:38-54 | a box containing one that meets c also meets c |
| Geometry.ContainsTransitive | scripts/extract_annotations.py:56-61 | containment is transitive |
| TextUtil.LowerChar | scripts/extract_annotations.py:409 | `str.lower` on one character maps A-Z into a-z and leaves non-letters alone |
| TextUtil.Lower | scripts/extract_annotations.py:409 | `str.lower` maps character by character and keeps the length |
| TextUtil.LeadingSpaces | scripts/extract_annotations.py:468-469 | the length of the whitespace prefix: every character before it is a space, the next one is not |
| TextUtil.LeadingDecimals | scripts/extract_annotations.py:465-466 | the length of the digit prefix, with the same maximality |
| TextUtil.LeadingSpacesExact | scripts/extract_annotations.py:468-469 | any maximal whitespace prefix has exactly that length |
| TextUtil.LeadingDecimalsExact | scripts/extract_annotations.py:465-466 | any maximal digit prefix has exactly that length |
| TextUtil.TrailingStart | scripts/extract_annotations.py:252 | the start of the whitespace suffix, which is maximal |
| TextUtil.Strip | scripts/extract_annotations.py:252 | `str.strip`: the result is the input with a maximal space prefix and suffix removed, and is empty exactly when the input is all spaces |
| TextUtil.StripIdempotent | scripts/extract_annotations.py:532 | stripping twice equals stripping once |
| TextUtil.NatToString | scripts/extract_annotations.py:288 | decimal printing gives a non-empty digit string without a leading zero |
| TextUtil.NatToStringRoundTrip | scripts/extract_annotations.py:288 | the printed number reads back as the number |
| FontSizes.RoundHalfEven | scripts/extract_annotations.py:411 | `round()`: the result is within 0.5 of x, and on a tie it is even |
| FontSizes.RoundingIsUnique | scripts/extract_annotations.py:411 | exactly one integer meets that rounding rule |
| FontSizes.FirstIndex | scripts/extract_annotations.py:419 | the first position of a value |
| FontSizes.FirstModeUnique | scripts/extract_annotations.py:419 | the most common value, with ties going to the value met first, is unique |
| FontSizes.BestOfAll | scripts/extract_annotations.py:419 | a value that beats every earlier-met rival over the whole list is the first mode |
| FontSizes.ModeFromIsFirstMode | scripts/extract_annotations.py:419 | the scan keeping the best value so far ends with the first mode |
| FontSizes.ModeIsFirstMode | scripts/extract_annotations.py:419 | `Counter.most_common(1)[0]` is the most frequent value, ties going to the value met first |
| FontSizes.Mode | scripts/extract_annotations.py:419 | no contract of its own: `Counter.most_common(1)[0][0]` as a scan keeping the best value so far; FontSizes.ModeIsFirstMode states what it computes |
| FontSizes.BaseFontSizeOf | scripts/extract_annotations.py:428-445 | `get_base_font_size` gives 12 when there are no sizes |
| FontSizes.BaseFontSizeIsMode | scripts/extract_annotations.py:428-445 | otherwise it gives the first mode of the rounded sizes |
| FontSizes.UpdateBaseFontSize | scripts/extract_annotations.py:447-457 | `update_base_font_size` gives `None` exactly for an empty sample |
| FontSizes.UpdateIsMode | scripts/extract_annotations.py:447-457 | otherwise it gives the sample's first mode |
| Sorting.SortedCons | scripts/extract_annotations.py:152 | a head no greater than a sorted tail's head gives a sorted list |
| Sorting.Insert | scripts/extract_annotations.py:152 | inserting one element adds exactly one element |
| Sorting.InsertHead | scripts/extract_annotations.py:152 | the inserted list starts with the new element or with the old head |
| Sorting.InsertPermutes | scripts/extract_annotations.py:152 | insertion adds the element to the multiset |
| Sorting.InsertSorted | scripts/extract_annotations.py:152 | insertion into a sorted list keeps it sorted |
| Sorting.SortBy | scripts/extract_annotations.py:152 | the sort keeps the length |
| Sorting.SortBySpec | scripts/extract_annotations.py:152 | the sort's result is sorted by key and is a permutation of its input |
| Sorting.WithKey | scripts/extract_annotations.py:152 | the elements with a given key, in input order: no longer than the input and all of that key |
| Sorting.WithKeyAppend | scripts/extract_annotations.py:152 | selecting by key distributes over concatenation |
| Sorting.NoneWithKey | scripts/extract_annotations.py:152 | with no element of that key nothing is selected |
| Sorting.InsertWithKey | scripts/extract_annotations.py:152 | insertion into a sorted list puts the new element after every element with the same key |
| Sorting.SortByStable | scripts/extract_annotations.py:152 | the sort is stable: for every key, the elements with that key keep their input order |
| Blocks.SpansOfStep | scripts/extract_annotations.py:252 | one more line adds its spans at the end |
| Blocks.BlockText | scripts/extract_annotations.py:250-255 | no contract of its own: the stripped join of the span texts; Blocks.ExtractTextFromBlock and Blocks.BlockTextEmpty state it |
| Blocks.JoinedAllSpace | scripts/extract_annotations.py:250-255 | the joined text is all spaces exactly when every span text is |
| Blocks.BlockTextEmpty | scripts/extract_annotations.py:250-255 | a block's text is empty exactly when every span text is all spaces |
| Blocks.ExtractTextFromBlock | scripts/extract_annotations.py:250-255 | the loops append every span text followed by a blank, line by line, and strip the result |
| Blocks.AppendTexts | scripts/extract_annotations.py:250-255 | the span loop appends the span texts in order |
| Blocks.FontNames | scripts/extract_annotations.py:485-490 | one font name per span |
| Blocks.FontNamesAt | scripts/extract_annotations.py:485-490 | entry k is span k's font |
| Blocks.FontNamesMember | scripts/extract_annotations.py:485-490 | a name is listed exactly when some span has that font |
| Blocks.FontsOfMember | scripts/extract_annotations.py:485-490 | the same, over all spans of a block |
| Blocks.CollectFonts | scripts/extract_annotations.py:485-490 | the loop collects the block's font names in span order |
| Blocks.RoundedSizes | scripts/extract_annotations.py:430-433 | one rounded size per span |
| Blocks.AppendSizes | scripts/extract_annotations.py:378-382 | a paragraph block appends its rounded span sizes to the sample and counts its lines |
| Blocks.AppendSpanSizes | scripts/extract_annotations.py:430-433 | the span loop appends the rounded sizes in order |
| Blocks.RoundedSizesStep | scripts/extract_annotations.py:430-433 | one more span adds its rounded size at the end |
| Blocks.RoundedSizesAppend | scripts/extract_annotations.py:430-433 | rounding distributes over concatenation |
| Blocks.NonzeroSizes | scripts/extract_annotations.py:405-412 | `_is_title` keeps at most one size per span |
| Blocks.NonzeroSizesStep | scripts/extract_annotations.py:405-412 | one more span adds its rounded size exactly when its size is non-zero |
| Blocks.NonzeroSizesMembers | scripts/extract_annotations.py:405-412 | a size is listed exactly when some non-zero span rounds to it, and the list is empty exactly when all sizes are zero |
| Blocks.TitleIff | scripts/extract_annotations.py:398-426 | `_is_title` holds iff some span has a non-zero size, some font contains "bold" in any case, and either the first mode is at least base + 2 or some non-zero span rounds to 26 |
| Blocks.IsTitle | scripts/extract_annotations.py:398-426 | no contract of its own: `_is_title` check by check; Blocks.TitleIff states when it holds |
| Blocks.TitleFacts | scripts/extract_annotations.py:405-412 | the span loop computes "some span is bold" and the non-zero rounded sizes |
| Blocks.TitleFactsOfSpans | scripts/extract_annotations.py:406-412 | the inner loop extends both accumulators by its spans |
| Blocks.BoldAppend | scripts/extract_annotations.py:408-409 | "some span is bold" over a concatenation is the disjunction |
| Blocks.NonzeroSizesAppend | scripts/extract_annotations.py:410-412 | the non-zero sizes of a concatenation concatenate |
| Blocks.BoldStep | scripts/extract_annotations.py:408-409 | the bold test of one more span reads that span's own font |
| Blocks.StartsWithShorter | scripts/extract_annotations.py:459-463 | a case-insensitive prefix match implies one for each shorter prefix |
| Blocks.IsTableSignature | scripts/extract_annotations.py:459-460 | no contract of its own: the case-insensitive prefix test; Blocks.TableSignatureIff states it |
| Blocks.IsPictureSignature | scripts/extract_annotations.py:462-463 | no contract of its own: the case-insensitive prefix test; Blocks.PictureSignatureIff states it |
| Blocks.TableSignatureIff | scripts/extract_annotations.py:459-460 | `_is_table_signature` holds iff the text starts, in any case, with "Табл" or "Table"; no number is needed |
| Blocks.PictureSignatureIff | scripts/extract_annotations.py:462-463 | `_is_picture_signature` holds iff the text starts, in any case, with "Рис" or "Figure" |
| Blocks.NumberedListGreedy | scripts/extract_annotations.py:465-466 | `^\d+\.\s` matches iff the maximal leading digit run is non-empty and is followed by "." and a space |
| Blocks.NumberedListIsLeading | scripts/extract_annotations.py:465-466 | any match of that pattern uses the maximal digit run |
| Blocks.IsNumberedList | scripts/extract_annotations.py:465-466 | no contract of its own: `^\d+\.\s` as some digit prefix, a dot and a space; Blocks.NumberedListGreedy states it |
| Blocks.MarkerNotSpace | scripts/extract_annotations.py:468-469 | no list marker is whitespace |
| Blocks.MarkedListGreedy | scripts/extract_annotations.py:468-469 | `^(\s*[-•*]\s+)` matches iff after the maximal leading whitespace comes a marker and then a space |
| Blocks.IsMarkedList | scripts/extract_annotations.py:468-469 | no contract of its own: `^(\s*[-•*]\s+)` as some space prefix, a marker and a space; Blocks.MarkedListGreedy states it |
| Blocks.HeaderFooterDisjoint | scripts/extract_annotations.py:471-475 | on a page at least 100 high no box is both header and footer, and a footer's top edge is below 50 |
| Blocks.IsHeader | scripts/extract_annotations.py:474-475 | no contract of its own: the top edge is above 50; Blocks.HeaderFooterDisjoint relates it to the footer test |
| Blocks.IsFooter | scripts/extract_annotations.py:471-472 | no contract of its own: the top edge is below the page height minus 50; Blocks.HeaderFooterDisjoint relates it to the header test |
| Blocks.ContainsSubAt | scripts/extract_annotations.py:494-512 | a needle found at some position is contained |
| Blocks.FormulaKeywordInsideWord | scripts/extract_annotations.py:509-512 | any text containing "log" or "ln", even inside a word, is a formula |
| Blocks.DecimalNumberIsFormula | scripts/extract_annotations.py:504-507 | any text with digit, ".", digit is a formula |
| Blocks.OperatorChainAt | scripts/extract_annotations.py:505-507 | no contract of its own: the first alternative of the advanced pattern, digits and an operator repeated then digits, matches at a position |
| Blocks.DecimalNumberAt | scripts/extract_annotations.py:505-507 | no contract of its own: the second alternative, digits, a dot, digits, matches at a position |
| Blocks.AdvancedMath | scripts/extract_annotations.py:505-507 | no contract of its own: `re.search` of the advanced pattern as written, one alternative matching at some position |
| Blocks.DigitOperatorDigit | scripts/extract_annotations.py:505-507 | no contract of its own: a digit, an operator or a dot, and a digit side by side |
| Blocks.DigitBefore | scripts/extract_annotations.py:505 | a non-empty digit run ends in a digit |
| Blocks.ChainHasTriple | scripts/extract_annotations.py:505-507 | every match of the operator chain contains a digit, an operator and a digit side by side |
| Blocks.DecimalHasTriple | scripts/extract_annotations.py:505-507 | every match of the decimal-number alternative contains a digit, a dot and a digit side by side |
| Blocks.MatchHasTriple | scripts/extract_annotations.py:505-507 | every match of the advanced pattern contains such a triple |
| Blocks.TripleIsMatch | scripts/extract_annotations.py:505-507 | every such triple is a match of the advanced pattern |
| Blocks.AdvancedMathIff | scripts/extract_annotations.py:505-507 | the advanced pattern is found iff a digit, an operator or a dot, and a digit stand side by side |
| Blocks.IsFormula | scripts/extract_annotations.py:477-514 | no contract of its own: `_is_formula` check by check, in the source's order; Blocks.FormulaKeywordInsideWord, Blocks.DecimalNumberIsFormula and Blocks.AdvancedMathIff state consequences |
| Blocks.DigitsThenCloser | scripts/extract_annotations.py:532-534 | a digit run followed by a closing character is a footnote mark |
| Blocks.BracketAtStartHasCloser | scripts/extract_annotations.py:532-534 | the leading `[n]` alternative implies a digit followed by a closer |
| Blocks.DigitsThenHasCloser | scripts/extract_annotations.py:532-534 | the digit-then-closer alternatives imply a digit followed by a closer |
| Blocks.NumberDotHasCloser | scripts/extract_annotations.py:532-534 | the trailing number-dot alternative implies a digit followed by a closer |
| Blocks.BracketNumberHasCloser | scripts/extract_annotations.py:532-534 | the bracketed-number alternative implies a digit followed by a closer |
| Blocks.FootnoteNumberHasCloser | scripts/extract_annotations.py:532-534 | any alternative of the footnote-number pattern implies a digit followed by a closer |
| Blocks.FootnoteNumberIff | scripts/extract_annotations.py:532-534 | the footnote-number pattern matches iff some digit is directly followed by a closing character |
| Blocks.ItalicPatternIff | scripts/extract_annotations.py:546-549 | the word pattern of the style test matches iff the text has a word character |
| Blocks.WordStartBefore | scripts/extract_annotations.py:546-549 | a word character is preceded by a word start |
| Blocks.FootnoteIff | scripts/extract_annotations.py:516-551 | `_is_footnote` holds iff a digit is followed by a closer, or there is a superscript character, or the top edge is below 0.9 of the page height, or there is a word character and a font named "italic" or "underline" |
| Blocks.IsFootnote | scripts/extract_annotations.py:516-551 | no contract of its own: `_is_footnote` check by check; Blocks.FootnoteIff states when it holds |
| Blocks.ItalicNeedsExactName | scripts/extract_annotations.py:546-549 | without a font named exactly "italic" or "underline", only the number, superscript and position tests count |
| Blocks.IsWithinTable | scripts/extract_annotations.py:593-597 | no contract of its own: all four edges within the table box; Blocks.WithinTableConverted states what truncation keeps |
| Blocks.WithinTableConverted | scripts/extract_annotations.py:593-597 | a box inside a table box stays inside it after both are truncated |
| CleanBlocks.Compress | scripts/extract_annotations.py:112-121 | collapsing equal neighbours keeps the first and last box |
| CleanBlocks.CompressNoRepeats | scripts/extract_annotations.py:112-121 | the collapsed list has no two equal neighbours |
| CleanBlocks.CompressSameBoxes | scripts/extract_annotations.py:112-121 | the collapsed list holds exactly the boxes of the input |
| CleanBlocks.CompressSpec | scripts/extract_annotations.py:112-121 | both of the above |
| CleanBlocks.CompressAllEqual | scripts/extract_annotations.py:112-121 | a list of equal boxes collapses to one box |
| CleanBlocks.CompressSnoc | scripts/extract_annotations.py:112-121 | collapsing one more box appends it unless it equals its predecessor |
| CleanBlocks.DeleteKeepsCompress | scripts/extract_annotations.py:115-119 | deleting a box equal to its predecessor does not change the collapsed prefix |
| CleanBlocks.DelDupsFromStep | scripts/extract_annotations.py:115-121 | one step of the backward deletion loop |
| CleanBlocks.DelDupsFrom | scripts/extract_annotations.py:115-121 | no contract of its own: the backward `del` loop from position i down to 0; CleanBlocks.DelDupsSpec states what it computes |
| CleanBlocks.DelDupsFromIsCompress | scripts/extract_annotations.py:115-121 | the loop from position i on the input equals the loop from 0 on the collapsed prefix |
| CleanBlocks.DelDupsSpec | scripts/extract_annotations.py:112-121 | the deletion loop collapses equal neighbours and then, because step 0 compares the first box with the last, drops the first box when it equals the last |
| CleanBlocks.DeleteDuplicates | scripts/extract_annotations.py:115-121 | the `del` loop computes that deletion |
| CleanBlocks.RunEnd | scripts/extract_annotations.py:123-143 | a run ends inside the list |
| CleanBlocks.RunEndSpec | scripts/extract_annotations.py:127-135 | every box of a run has its bottom within 10 of the run's first bottom, and the box ending the run does not |
| CleanBlocks.RunEndsAt | scripts/extract_annotations.py:127-135 | a run that passes the test up to i and fails at i ends at i |
| CleanBlocks.SortRun | scripts/extract_annotations.py:132 | sorting a run keeps its length |
| CleanBlocks.SortRunSpec | scripts/extract_annotations.py:132 | a sorted run is ascending by x0 and a permutation of the run |
| CleanBlocks.SortRunSingle | scripts/extract_annotations.py:132 | sorting a single box changes nothing |
| CleanBlocks.SortRunsHead | scripts/extract_annotations.py:123-143 | the repaired list starts with the first run sorted by x0, and it holds the same boxes |
| CleanBlocks.SortedRunPermutes | scripts/extract_annotations.py:123-143 | a sorted run in front of a permutation of the rest permutes the suffix |
| CleanBlocks.SortRunsPermutes | scripts/extract_annotations.py:123-143 | the run repair keeps the length and is a permutation |
| CleanBlocks.ScanRunsIsSortRuns | scripts/extract_annotations.py:127-143 | the repair loop's scan, which tracks the run's first bottom, gives the run-by-run repair |
| CleanBlocks.Concat3 | scripts/extract_annotations.py:132-133 | the concatenation regrouping the repair loop relies on |
| CleanBlocks.FlushRun | scripts/extract_annotations.py:132-133 | the slice assignment puts the sorted run in its place |
| CleanBlocks.CloseRun | scripts/extract_annotations.py:129-135 | a box failing the bottom test closes the run and starts a new one |
| CleanBlocks.FinishRuns | scripts/extract_annotations.py:137-142 | the final flush completes the repair |
| CleanBlocks.RunStep | scripts/extract_annotations.py:127-135 | one iteration of the repair loop keeps the loop invariant |
| CleanBlocks.SortedLastRun | scripts/extract_annotations.py:137-142 | sorting the last run in place completes the repair |
| CleanBlocks.SingleLastRun | scripts/extract_annotations.py:137-142 | a last run of one box is already in place |
| CleanBlocks.LastRun | scripts/extract_annotations.py:137-142 | the final flush after the loop, sorting the last run unless it is one box, completes the repair |
| CleanBlocks.SortRuns | scripts/extract_annotations.py:123-143 | the repair loop computes the run-by-run repair |
| CleanBlocks.CleanNBlocks | scripts/extract_annotations.py:109-144 | `clean_nblocks` computes `Clean`: short lists unchanged, otherwise deletion then repair, and an error where `nblocks[0]` fails |
| CleanBlocks.Clean | scripts/extract_annotations.py:109-144 | no contract of its own: short lists unchanged, otherwise deletion then repair, an error when the deletion empties the list; CleanBlocks.CleanFailsIffAllEqual and CleanBlocks.CleanKeepsBoxes state it |
| CleanBlocks.CleanFailsIffAllEqual | scripts/extract_annotations.py:109-144 | `clean_nblocks` fails exactly on a list of two or more boxes that are all equal |
| CleanBlocks.CleanKeepsBoxes | scripts/extract_annotations.py:109-144 | when it succeeds, a short list comes back unchanged and the result holds exactly the boxes of the input |
| Columns.InBbox | scripts/extract_annotations.py:56-61 | `in_bbox` gives 0 iff no box contains bb, otherwise the 1-based index of the first box that does |
| Columns.IntersectsBboxes | scripts/extract_annotations.py:63-68 | `intersects_bboxes` holds iff some box shares area with bb |
| Columns.CanExtend | scripts/extract_annotations.py:38-54 | `can_extend` holds iff the list is empty, or temp meets no vertical-text box and every item is removed, equal to bb, or disjoint from temp |
| Columns.Present | scripts/extract_annotations.py:206-210 | the old boxes as a list of present items |
| Columns.LinesRect | scripts/extract_annotations.py:178-185 | the union over the lines with more than one visible character contains each such non-empty line box, and is empty iff there is none |
| Columns.BlockRects | scripts/extract_annotations.py:166-188 | the text rectangles are non-empty, and each block contributes at most one rectangle |
| Columns.BlockRectsPrefix | scripts/extract_annotations.py:166-188 | the block loop processes blocks in order |
| Columns.UnionOfLines | scripts/extract_annotations.py:178-185 | the line loop computes that union |
| Columns.MakeBlockRects | scripts/extract_annotations.py:166-188 | the block loop computes the text and vertical-text rectangles |
| Columns.AddBlock | scripts/extract_annotations.py:167-188 | one block is skipped over an image, recorded as vertical text, or contributes its non-empty line union |
| Columns.SortPaths | scripts/extract_annotations.py:152 | background boxes are sorted by (top, left), as a permutation |
| Columns.SortTextBoxes | scripts/extract_annotations.py:191 | text boxes are sorted by (background index, top, left), as a permutation |
| Columns.ExtendAt | scripts/extract_annotations.py:85-105 | one step of `extend_right` changes at most box i |
| Columns.ExtendFrom | scripts/extract_annotations.py:70-107 | `extend_right` keeps the length |
| Columns.ExtendRight | scripts/extract_annotations.py:70-107 | the in-place loop over the array computes `extend_right` |
| Columns.ExtendAtStretch | scripts/extract_annotations.py:85-105 | a step that changes box i sets its x1 to the page width, after all of extend_right's tests passed |
| Columns.ExtendStepKeepsOverlap | scripts/extract_annotations.py:85-105 | a step keeps stretched boxes free of overlaps |
| Columns.ExtendStep | scripts/extract_annotations.py:85-105 | a step keeps the extend_right invariant |
| Columns.ExtendFromProperties | scripts/extract_annotations.py:85-107 | the remaining steps establish the invariant over the whole list |
| Columns.ExtendRightSpec | scripts/extract_annotations.py:70-107 | `extend_right` keeps the length and changes a box only by setting x1 to the page width. It does so only for a box inside no background or image box whose stretch meets no background, vertical-text or image box, and no stretched box overlaps another box |
| Columns.FindJoin | scripts/extract_annotations.py:213-227 | the inner search reports a position among the new blocks, with the union of bb and that block |
| Columns.JoinStep | scripts/extract_annotations.py:211-240 | one join iteration sets the old slot i to None and leaves the other slots alone |
| Columns.SearchJoin | scripts/extract_annotations.py:213-227 | the inner loop computes that search |
| Columns.JoinColumns | scripts/extract_annotations.py:206-240 | the join loop computes the join pass |
| Columns.JoinFrom | scripts/extract_annotations.py:206-240 | no contract of its own: the join loop from slot i on; Columns.JoinFromCovers states what it keeps |
| Columns.Join | scripts/extract_annotations.py:206-240 | no contract of its own: the join pass, starting from the first box; Columns.JoinCoversEveryBox states it |
| Columns.JoinOne | scripts/extract_annotations.py:211-240 | one iteration, with `bboxes[i] = None` done on the array |
| Columns.JoinStepCovers | scripts/extract_annotations.py:211-240 | after a join step, the handled box and every box covered before are inside some new block |
| Columns.JoinFromCovers | scripts/extract_annotations.py:206-240 | the remaining iterations keep every covered or pending box covered |
| Columns.JoinCoversEveryBox | scripts/extract_annotations.py:206-240 | every non-empty box handed to the join pass ends up inside some new block |
| Columns.ColumnBoxes | scripts/extract_annotations.py:18-246 | `column_boxes` pass by pass: rectangles, sort, extend, an empty result when there is no text, join, clean |
| Columns.ColumnBoxesOf | scripts/extract_annotations.py:18-246 | no contract of its own: the result of `column_boxes` pass by pass; Columns.ColumnBoxes computes it and Columns.ColumnBoxesCoverText states what it covers |
| Columns.ColumnBoxesCoverText | scripts/extract_annotations.py:18-246 | every non-empty text box surviving `extend_right` lies inside some returned column box |
| MultiColumn.DetectColumns | scripts/extract_annotations.py:559-573 | the scan of one page's column boxes |
| MultiColumn.PairMatch | scripts/extract_annotations.py:560-562 | no contract of its own: the two-column template on the left and right edges, tops within 5 |
| MultiColumn.TripleRows | scripts/extract_annotations.py:569-570 | no contract of its own: the absolute value of the largest of the three top differences is below 5 |
| MultiColumn.TripleMatch | scripts/extract_annotations.py:566-570 | no contract of its own: the three-column template on the left and right edges, with TripleRows |
| MultiColumn.Detect | scripts/extract_annotations.py:559-573 | no contract of its own: the boxes the scan of one page keeps; MultiColumn.DetectIff states which boxes, and MultiColumn.DetectEmptyIff when there are none |
| MultiColumn.MatchesUpToFromInput | scripts/extract_annotations.py:559-573 | the scan only reports boxes of its input |
| MultiColumn.MatchesUpToEmpty | scripts/extract_annotations.py:559-573 | the first n steps report nothing iff no step below n matches a template |
| MultiColumn.DetectFromInput | scripts/extract_annotations.py:559-573 | a page's reported boxes are boxes of the page |
| MultiColumn.DetectEmptyIff | scripts/extract_annotations.py:559-573 | a page reports nothing iff no neighbouring pair or triple matches a template |
| MultiColumn.StepReportedUpTo | scripts/extract_annotations.py:559-573 | the boxes a step appends stay in the scan's list through every later step |
| MultiColumn.PairReported | scripts/extract_annotations.py:560-564 | both boxes of every neighbouring pair matching the two-column template are reported |
| MultiColumn.TripleReported | scripts/extract_annotations.py:566-573 | all three boxes of every neighbouring triple matching the three-column template are reported |
| MultiColumn.ReportedAt | scripts/extract_annotations.py:559-573 | no contract of its own: x is a box of a matching pair or a matching triple at position i |
| MultiColumn.MatchesUpToFromMatch | scripts/extract_annotations.py:559-573 | every box the first n steps report belongs to a matching pair or triple at a position below n |
| MultiColumn.ReportedFromMatch | scripts/extract_annotations.py:559-573 | every reported box belongs to a matching pair or triple |
| MultiColumn.DetectIff | scripts/extract_annotations.py:559-573 | a box is reported iff it belongs to a neighbouring pair matching the two-column template or a neighbouring triple matching the three-column template |
| MultiColumn.TripleRowsIgnoresLowFirstColumn | scripts/extract_annotations.py:569-570 | the three-column row test accepts a first column 100 units below the others |
| MultiColumn.PageResults | scripts/extract_annotations.py:556-575 | one contribution per page |
| MultiColumn.MultiColumnsErrStays | scripts/extract_annotations.py:556-575 | a failed page fails the rest of the scan |
| MultiColumn.MultiColumnsPrefix | scripts/extract_annotations.py:556-575 | the result after n pages depends only on those pages |
| MultiColumn.MultiColumnsStep | scripts/extract_annotations.py:556-575 | one more page records its boxes under its number when there are any, and its error aborts the scan |
| MultiColumn.ErrorAborts | scripts/extract_annotations.py:556-575 | once a page has failed, the document's result is that failure |
| MultiColumn.MultiColumnsFailIff | scripts/extract_annotations.py:556-575 | the scan fails iff some page fails |
| MultiColumn.MultiColumnsContents | scripts/extract_annotations.py:574-575 | without failures, the keys are exactly the pages with detected boxes, each mapped to those boxes |
| MultiColumn.PageResultsAt | scripts/extract_annotations.py:556-575 | contribution k belongs to page k |
| MultiColumn.MultiColumnsWithSpec | scripts/extract_annotations.py:553-577 | `check_multi_column_text` fails iff the detector fails on some page; otherwise its keys are exactly the pages where a template matched, each mapped to the matched boxes |
| MultiColumn.MultiColumnsOf | scripts/extract_annotations.py:553-577 | no contract of its own: the document scan with the column detector; MultiColumn.CheckMultiColumnText computes it |
| MultiColumn.ScanPageFails | scripts/extract_annotations.py:556-557 | a failing page gives the document's result |
| MultiColumn.ScanPageContinues | scripts/extract_annotations.py:556-575 | a successful page extends the map by its boxes, if any |
| MultiColumn.PageContribution | scripts/extract_annotations.py:556-573 | one page: the column detector, then the scan |
| MultiColumn.CheckMultiColumnText | scripts/extract_annotations.py:553-577 | the page loop computes the document scan |
| Analyzer.InAllRegions | scripts/extract_annotations.py:285-302 | every region is one of the thirteen page lists |
| Analyzer.AllRegionsEnumerates | scripts/extract_annotations.py:285-302 | the thirteen lists are listed once each |
| Analyzer.NoBoxes | scripts/extract_annotations.py:288-301 | a fresh page dictionary has every list, all empty |
| Analyzer.PagePathInjective | scripts/extract_annotations.py:288 | no two pages share an image name |
| Analyzer.FirstAdmittingSpec | scripts/extract_annotations.py:356-377 | first match: the chosen region's test holds and every earlier test fails, or no test holds and the region is paragraph |
| Analyzer.Chosen | scripts/extract_annotations.py:356-377 | no contract of its own: the if/elif cascade over the test results; Analyzer.ChainUnfolds and Analyzer.ChosenIsFirstAdmitting state it |
| Analyzer.Classify | scripts/extract_annotations.py:356-377 | no contract of its own: the cascade over the source's tests of a block; Analyzer.ChosenHolds states it |
| Analyzer.ChainUnfolds | scripts/extract_annotations.py:356-377 | first match over the chain is the if/elif cascade in the source's order |
| Analyzer.ChosenIsFirstAdmitting | scripts/extract_annotations.py:356-377 | the block loop's chain is first match over picture, table caption, picture caption, header, numbered list, marked list, footer, formula, footnote, title, paragraph |
| Analyzer.ChosenHolds | scripts/extract_annotations.py:356-377 | the chosen region's test holds |
| Analyzer.Step | scripts/extract_annotations.py:341-387 | one block step keeps a complete page dictionary and a baseline |
| Analyzer.StepAddsOneBox | scripts/extract_annotations.py:346-377 | a skipped block changes nothing; any other block adds its truncated box to its region's list, and every other list stays as it was |
| Analyzer.Skipped | scripts/extract_annotations.py:346-352 | no contract of its own: a block inside a table box, or with empty text and not an image, is skipped |
| Analyzer.FeedsBaseline | scripts/extract_annotations.py:317-332 | no contract of its own: page 0's blocks outside tables with non-empty text feed the first baseline |
| Analyzer.BaselineUpdateRule | scripts/extract_annotations.py:378-387 | only a paragraph feeds the sample and the line count. The baseline is re-estimated, as the sample's first mode, when the count exceeds 50 and the sample holds more than 5 sizes; the count then restarts at 0 and the sample is kept |
| Analyzer.ScanBlocks | scripts/extract_annotations.py:341-387 | the block loop keeps a complete page dictionary and a baseline |
| Analyzer.BoxCountAppend | scripts/extract_annotations.py:376-377 | appending one box to one list raises the total by one |
| Analyzer.ScanBlocksCount | scripts/extract_annotations.py:341-387 | the page gains exactly one box per block that is not skipped |
| Analyzer.ScanKeepsTablesAndColumns | scripts/extract_annotations.py:341-387 | the block loop leaves the table and multi-column lists alone |
| Analyzer.BaselineBlocks | scripts/extract_annotations.py:317-332 | no contract of its own: the blocks that feed the first baseline, in order; Analyzer.DocumentAnalyzer.CollectBaselineBlocks computes it |
| Analyzer.ConvertAll | scripts/extract_annotations.py:305-307 | one truncated box per table box |
| Analyzer.PageStart | scripts/extract_annotations.py:285-312 | the page dictionary before the block loop has all thirteen lists |
| Analyzer.PageBase | scripts/extract_annotations.py:315-336 | page 0 sets the baseline when there is none; an existing baseline is kept |
| Analyzer.AnnotatePageSpec | scripts/extract_annotations.py:282-389 | a page appends exactly one annotation, keeps the earlier ones and leaves a baseline |
| Analyzer.AnnotatePageAppends | scripts/extract_annotations.py:282-389 | a page's annotation does not depend on the earlier annotations |
| Analyzer.AnnotateUpTo | scripts/extract_annotations.py:282-389 | after n pages there are n annotations and a baseline |
| Analyzer.ColumnsOf | scripts/extract_annotations.py:556 | each page's view for the column detector |
| Analyzer.PageAnnotationFacts | scripts/extract_annotations.py:285-389 | the annotation a page adds has the page's truncated size, its own image name, all thirteen lists, and its table and multi-column boxes |
| Analyzer.AnnotateUpToPrefix | scripts/extract_annotations.py:282-389 | later pages never change earlier annotations |
| Analyzer.AnnotationOfPage | scripts/extract_annotations.py:282-389 | annotation k describes page k |
| Analyzer.ExtractSpec | scripts/extract_annotations.py:274-392 | no contract of its own: the multi-column scan, then the page loop; Analyzer.DocumentAnalyzer.ExtractCoordinates computes it |
| Analyzer.DocumentAnalyzer.constructor | scripts/extract_annotations.py:257-272 | a new analyzer has no baseline |
| Analyzer.DocumentAnalyzer.GetBaseFontSize | scripts/extract_annotations.py:428-445 | the loops compute the first mode of the rounded sizes, or 12 |
| Analyzer.DocumentAnalyzer.IsTitleBlock | scripts/extract_annotations.py:398-426 | `_is_title` against the current baseline |
| Analyzer.DocumentAnalyzer.ClassifyBlock | scripts/extract_annotations.py:356-377 | the if/elif chain picks the block's region |
| Analyzer.DocumentAnalyzer.ScanBlock | scripts/extract_annotations.py:341-387 | one iteration of the block loop, including the baseline field update |
| Analyzer.DocumentAnalyzer.CollectBaselineBlocks | scripts/extract_annotations.py:317-332 | page 0's blocks outside tables with non-empty text, in order |
| Analyzer.DocumentAnalyzer.ConvertBoxes | scripts/extract_annotations.py:305-307 | the table boxes, truncated, in order |
| Analyzer.DocumentAnalyzer.ScanPage | scripts/extract_annotations.py:339-387 | the block loop of one page, updating the baseline field |
| Analyzer.DocumentAnalyzer.AnnotatePage | scripts/extract_annotations.py:283-389 | one iteration of the page loop |
| Analyzer.DocumentAnalyzer.ExtractCoordinates | scripts/extract_annotations.py:274-392 | `extract_coordinates` fails, leaving the analyzer unchanged, exactly when the multi-column scan fails; otherwise it returns the page loop's annotations and leaves the baseline the loop ends with |

## Left out

- PyMuPDF is not modelled: opening documents, `get_text`, `get_drawings`, `get_images`/`get_image_rects`, `find_tables`. Each page's blocks, drawings, images and table boxes are inputs.
- The column detector's view of a page (`ColumnPage`) is an input. Its block, drawing and vertical-text rectangles have integer corners, as PyMuPDF's `IRect` and `irect` give them, and its text blocks are already clipped to the body area between the 50-unit header and footer margins.
- Columns.AddBlock: the image boxes are taken to have integer corners too, although `get_image_rects` returns float rectangles; the image test `in_bbox(bbox, img_bboxes)` is therefore modelled on integer image boxes, and a fractional image edge is not.
- Columns.ExtendAt: the same integral image boxes are used by the image-containment and image-intersection tests of `extend_right`.
- Columns.ColumnBoxes: its requirement BlocksHaveLines asks every block to have at least one line, while the source reads `b["lines"][0]` only for a block that survives the image test, so a block without lines lying on an image is excluded from the model although the source skips it without error. Columns.ColumnBoxesOf, MultiColumn.CheckMultiColumnText and Analyzer.DocumentAnalyzer.ExtractCoordinates carry the same requirement.
- `tables_find` is not modelled: the table boxes are an input map from page number to boxes, with an absent key for a page without tables.
- `generate_annotated_images` and `main` are not modelled: directory listing, rendering, drawing, JSON output and the colour table. The `print` calls are left out too.
- Regular expressions are written as explicit predicates over characters:
  - `\s` is Python's whitespace set;
  - `str.lower` maps ASCII and the basic Cyrillic letters;
  - other Unicode case mappings are not modelled.
- Python's sort (Timsort) is modelled as a stable insertion sort with the same keys; sortedness, permutation and stability are proved.
- Blocks.ItalicPatternIff: the word-boundary class `\w` (`str.isalnum()` or `_`) is modelled only over the ranges TextUtil.IsLetter, TextUtil.IsDigitChar and TextUtil.IsWordChar list: ASCII letters; ª, µ, º and U+00C0-U+00FF other than × and ÷; U+0100-U+024F; the Greek letters of U+0370-U+03FF (all but U+0375, U+0378-U+0379, U+037E, U+0380-U+0385, U+0387, U+038B, U+038D, U+03A2 and U+03F6); the Cyrillic letters U+0400-U+0481 and U+048A-U+04FF; the CJK ideographs U+3400-U+4DBF and U+4E00-U+9FFF; the digits IsDigitChar lists; ¼, ½, ¾ and the number forms U+2150-U+2189; and `_`. Every other letter or numeric character (Arabic, Hebrew and Devanagari letters, Thai, the CJK extensions beyond A, and others) is a word character in Python and not in the model.
- Blocks.FootnoteIff: the italic test inherits that approximation of `\w`, so a block whose only word characters come from another script is a footnote in Python and not in the model; its digit-and-closer alternatives read `\d` as an ASCII digit, while Python's `\d` matches every Unicode decimal digit.
- Blocks.FootnoteNumberIff: `\d` is an ASCII digit; Python's `\d` also matches the decimal digits of other scripts.
- Blocks.NumberedListGreedy: `\d` is an ASCII digit, as above.
- Blocks.IsFormula: `c.isdigit()` is TextUtil.IsDigitChar, which covers U+0030-U+0039, U+0660-U+0669, U+06F0-U+06F9, U+0966-U+096F, U+FF10-U+FF19, the superscript digits ¹ ² ³, U+2070 and U+2074-U+2079, the subscript digits U+2080-U+2089 and the circled digits U+2460-U+2468; the other characters Python's `isdigit` accepts (the decimal digits of other scripts such as Bengali U+09E6-U+09EF, the parenthesized and dingbat digits, and others) are not digits in the model. The advanced pattern reads `\d` as an ASCII digit.
- Blocks.AdvancedMathIff: `\d` is an ASCII digit, as above.
- Analyzer.DocumentAnalyzer.ExtractCoordinates: the failure of `clean_nblocks` (an `IndexError`) is modelled as an error result, not as an exception. Because the multi-column scan runs before the page loop, the error leaves no annotations.
- Blocks.RoundedSizes: a span whose `size` is missing is not modelled. Every span carries a real size, and only `_is_title` filters out zero sizes.
- Columns.ExtendAt: the source's `None` filter inside `extend_right` cannot fire, because no box is ever `None` there. The model's list has no `None` items.
- Columns.ExtendRightSpec: the no-overlap property exempts a pair where one box equals the other's original box, because `can_extend` skips items equal to the box being extended.
- Floating-point arithmetic is modelled as exact real arithmetic.
