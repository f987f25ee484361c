/** Font-size arithmetic: Python's round() on sizes, and the Counter-based
    "most common size" that both baseline estimators use
    (scripts/extract_annotations.py, get_base_font_size and
    update_base_font_size). */
module FontSizes {
  import opened Wrappers

  // ---------------------------------------------------------------------
  // round()
  // ---------------------------------------------------------------------

  /** Python's round() on a float: to the nearest integer, halves to the even one. */
  function RoundHalfEven(x: real): (r: int)
    ensures -0.5 <= r as real - x <= 0.5
    ensures (r as real - x == 0.5 || x - r as real == 0.5) ==> r % 2 == 0
  {
    var f := x.Floor;
    var d := x - f as real;
    if d < 0.5 then f
    else if d > 0.5 then f + 1
    else if f % 2 == 0 then f
    else f + 1
  }

  /** The two properties of RoundHalfEven determine the result. */
  lemma RoundingIsUnique(x: real, r1: int, r2: int)
    requires -0.5 <= r1 as real - x <= 0.5 && -0.5 <= r2 as real - x <= 0.5
    requires (r1 as real - x == 0.5 || x - r1 as real == 0.5) ==> r1 % 2 == 0
    requires (r2 as real - x == 0.5 || x - r2 as real == 0.5) ==> r2 % 2 == 0
    ensures r1 == r2
  {
  }

  // ---------------------------------------------------------------------
  // Counter(...).most_common(1)[0][0]
  // ---------------------------------------------------------------------

  /** How often x occurs in s (a Counter entry). */
  function Count(s: seq<int>, x: int): nat
  {
    multiset(s)[x]
  }

  /** The position where x first occurs in s (the Counter's insertion order). */
  function FirstIndex(s: seq<int>, x: int): (i: nat)
    requires x in s
    ensures i < |s| && s[i] == x
    ensures forall k :: 0 <= k < i ==> s[k] != x
  {
    if s[0] == x then 0 else 1 + FirstIndex(s[1..], x)
  }

  /** m is a most frequent value of s, and among the most frequent values the
      one met first: what most_common(1) returns on a Counter built from s. */
  ghost predicate IsFirstMode(s: seq<int>, m: int)
  {
    m in s &&
    (forall y :: Count(s, y) <= Count(s, m)) &&
    (forall k :: 0 <= k < |s| && Count(s, s[k]) == Count(s, m) ==> FirstIndex(s, m) <= k)
  }

  /** A most frequent value is unique once ties go to the first one met. */
  lemma FirstModeUnique(s: seq<int>, m1: int, m2: int)
    requires IsFirstMode(s, m1) && IsFirstMode(s, m2)
    ensures m1 == m2
  {
    var i1, i2 := FirstIndex(s, m1), FirstIndex(s, m2);
    assert Count(s, s[i2]) == Count(s, m1);
    assert Count(s, s[i1]) == Count(s, m2);
  }

  /** best is the answer for the prefix s[..i]. */
  ghost predicate BestSoFar(s: seq<int>, i: nat, best: int)
    requires i <= |s|
  {
    best in s && FirstIndex(s, best) < i &&
    (forall k :: 0 <= k < i ==> Count(s, s[k]) <= Count(s, best)) &&
    (forall k :: 0 <= k < i && Count(s, s[k]) == Count(s, best) ==> FirstIndex(s, best) <= k)
  }

  lemma BestOfAll(s: seq<int>, best: int)
    requires BestSoFar(s, |s|, best)
    ensures IsFirstMode(s, best)
  {
    forall y ensures Count(s, y) <= Count(s, best) {
      if y in s {
        assert s[FirstIndex(s, y)] == y;
      }
    }
  }

  /** The scan of the sizes from position i on, keeping the first value with
      the largest count. */
  function ModeFrom(s: seq<int>, i: nat, best: int): int
    requires i <= |s|
    decreases |s| - i
  {
    if i == |s| then best
    else if Count(s, s[i]) > Count(s, best) then ModeFrom(s, i + 1, s[i])
    else ModeFrom(s, i + 1, best)
  }

  /** Started from the answer for a prefix, the scan ends with the answer for
      the whole sample. */
  lemma {:induction false} ModeFromIsFirstMode(s: seq<int>, i: nat, best: int)
    requires 1 <= i <= |s| && BestSoFar(s, i, best)
    ensures IsFirstMode(s, ModeFrom(s, i, best))
    decreases |s| - i
  {
    if i == |s| {
      BestOfAll(s, best);
    } else if Count(s, s[i]) > Count(s, best) {
      ModeFromIsFirstMode(s, i + 1, s[i]);
    } else {
      ModeFromIsFirstMode(s, i + 1, best);
    }
  }

  /** The most common value of a non-empty sample, ties to the first met. */
  function Mode(s: seq<int>): int
    requires |s| > 0
  {
    ModeFrom(s, 1, s[0])
  }

  /** Mode is what most_common(1) returns. */
  lemma ModeIsFirstMode(s: seq<int>)
    requires |s| > 0
    ensures IsFirstMode(s, Mode(s))
  {
    ModeFromIsFirstMode(s, 1, s[0]);
  }

  /** get_base_font_size on the collected rounded sizes: their mode, or 12 with no sizes. */
  function BaseFontSizeOf(sizes: seq<int>): (r: int)
    ensures sizes == [] ==> r == 12
  {
    if sizes == [] then 12 else Mode(sizes)
  }

  /** The baseline of a non-empty sample is its most common size. */
  lemma BaseFontSizeIsMode(sizes: seq<int>)
    requires sizes != []
    ensures IsFirstMode(sizes, BaseFontSizeOf(sizes))
  {
    ModeIsFirstMode(sizes);
  }

  /** update_base_font_size: the mode of the sample, or None when it is empty. */
  function UpdateBaseFontSize(sizes: seq<int>): (r: Option<int>)
    ensures r.None? <==> sizes == []
  {
    if sizes == [] then None else Some(Mode(sizes))
  }

  /** The updated baseline is the sample's most common size. */
  lemma UpdateIsMode(sizes: seq<int>)
    requires sizes != []
    ensures IsFirstMode(sizes, UpdateBaseFontSize(sizes).value)
  {
    ModeIsFirstMode(sizes);
  }
}
