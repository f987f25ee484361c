/** Rectangles as the page-content provider reports them, and the small
    rectangle theory the column detector relies on (PyMuPDF's Rect/IRect
    semantics for emptiness, containment, intersection and union). */
module Geometry {

  /** A box with real coordinates: block boxes and table boxes. y grows downward. */
  datatype Rect = Rect(x0: real, y0: real, x1: real, y1: real)

  /** A box with integer coordinates: the column detector's IRect, and the
      truncated [x0, y0, x1, y1] boxes written into a page annotation. */
  datatype IRect = IRect(x0: int, y0: int, x1: int, y1: int)

  // ---------------------------------------------------------------------
  // Integer truncation, as Python's int() applied to a float
  // ---------------------------------------------------------------------

  /** r is x with its fractional part dropped, rounding toward zero. */
  ghost predicate TruncOf(x: real, r: int)
  {
    if 0.0 <= x then r as real <= x < r as real + 1.0
    else r as real - 1.0 < x <= r as real
  }

  /** Python's int() on a float: truncation toward zero (not Dafny's floor). */
  function Trunc(x: real): (r: int)
    ensures TruncOf(x, r)
  {
    if 0.0 <= x then x.Floor else -((-x).Floor)
  }

  /** Truncation is a function of its argument: only one integer fits. */
  lemma TruncOfUnique(x: real, r1: int, r2: int)
    requires TruncOf(x, r1) && TruncOf(x, r2)
    ensures r1 == r2
  {
  }

  /** Truncation keeps the order of its arguments. */
  lemma TruncMonotone(x: real, y: real)
    requires x <= y
    ensures Trunc(x) <= Trunc(y)
  {
    if x < 0.0 && 0.0 <= y {
      assert Trunc(x) <= 0;
    } else if x < 0.0 {
      assert (-y).Floor <= (-x).Floor;
    }
  }

  /** _convert_coordinates: every coordinate truncated toward zero. */
  function ConvertCoordinates(b: Rect): (r: IRect)
    ensures TruncOf(b.x0, r.x0) && TruncOf(b.y0, r.y0)
    ensures TruncOf(b.x1, r.x1) && TruncOf(b.y1, r.y1)
  {
    IRect(Trunc(b.x0), Trunc(b.y0), Trunc(b.x1), Trunc(b.y1))
  }

  /** The identity on boxes that already have integer corners: int(int) == int. */
  lemma ConvertIntegral(b: IRect)
    ensures ConvertCoordinates(Rect(b.x0 as real, b.y0 as real, b.x1 as real, b.y1 as real)) == b
  {
    var r := ConvertCoordinates(Rect(b.x0 as real, b.y0 as real, b.x1 as real, b.y1 as real));
    TruncOfUnique(b.x0 as real, r.x0, b.x0);
    TruncOfUnique(b.y0 as real, r.y0, b.y0);
    TruncOfUnique(b.x1 as real, r.x1, b.x1);
    TruncOfUnique(b.y1 as real, r.y1, b.y1);
  }

  // ---------------------------------------------------------------------
  // IRect theory
  // ---------------------------------------------------------------------

  function Min(a: int, b: int): int { if a <= b then a else b }
  function Max(a: int, b: int): int { if a >= b then a else b }

  /** PyMuPDF's is_empty: no area, so boxes that only touch along an edge
      have an empty intersection. */
  predicate IsEmpty(a: IRect)
  {
    a.x0 >= a.x1 || a.y0 >= a.y1
  }

  /** The rectangle PyMuPDF starts a union from. */
  const EmptyIRect: IRect := IRect(0, 0, 0, 0)

  /** `a & b`; only its emptiness is ever inspected. */
  function Inter(a: IRect, b: IRect): IRect
  {
    IRect(Max(a.x0, b.x0), Max(a.y0, b.y0), Min(a.x1, b.x1), Min(a.y1, b.y1))
  }

  /** `not (a & b).is_empty`: the two boxes share some area. */
  predicate Intersects(a: IRect, b: IRect)
  {
    !IsEmpty(Inter(a, b))
  }

  /** `inner in outer`: coordinate-wise containment of a well-ordered box. */
  predicate Contains(outer: IRect, inner: IRect)
  {
    outer.x0 <= inner.x0 <= inner.x1 <= outer.x1 &&
    outer.y0 <= inner.y0 <= inner.y1 <= outer.y1
  }

  /** `a | b` (include_rect): an empty operand is ignored, otherwise the hull. */
  function Union(a: IRect, b: IRect): (r: IRect)
    ensures !IsEmpty(a) ==> Contains(r, a)
    ensures !IsEmpty(b) ==> Contains(r, b)
    ensures IsEmpty(r) <==> IsEmpty(a) && IsEmpty(b)
    ensures !IsEmpty(a) && !IsEmpty(b) ==>
              forall c :: Contains(c, a) && Contains(c, b) ==> Contains(c, r)
  {
    if IsEmpty(b) then a
    else if IsEmpty(a) then b
    else IRect(Min(a.x0, b.x0), Min(a.y0, b.y0), Max(a.x1, b.x1), Max(a.y1, b.y1))
  }

  /** Two boxes that only share an edge or a corner do not intersect, and an
      intersection is symmetric. */
  lemma TouchingIsDisjoint(a: IRect, b: IRect)
    requires a.x1 == b.x0 || a.y1 == b.y0
    ensures !Intersects(a, b) && !Intersects(b, a)
  {
  }

  /** Anything that meets a box also meets every box containing it. */
  lemma IntersectsGrows(small: IRect, big: IRect, c: IRect)
    requires Contains(big, small) && Intersects(small, c)
    ensures Intersects(big, c)
  {
  }

  /** Containment is transitive. */
  lemma ContainsTransitive(a: IRect, b: IRect, c: IRect)
    requires Contains(a, b) && Contains(b, c)
    ensures Contains(a, c)
  {
  }
}
