/** Half-open rectangles (engine/kms.c:39-76). */
module Rects {

  datatype Rect = Rect(x0: int, y0: int, x1: int, y1: int)

  const NOWHERE := Rect(0, 0, 0, 0)

  predicate Empty(a: Rect) {
    a.x0 >= a.x1 || a.y0 >= a.y1
  }

  function Area(a: Rect): int {
    if Empty(a) then 0 else (a.x1 - a.x0) * (a.y1 - a.y0)
  }

  function Min(a: int, b: int): int {
    if a < b then a else b
  }

  function Max(a: int, b: int): int {
    if a > b then a else b
  }

  function Union(a: Rect, b: Rect): Rect {
    if Empty(a) then b
    else if Empty(b) then a
    else Rect(Min(a.x0, b.x0), Min(a.y0, b.y0), Max(a.x1, b.x1), Max(a.y1, b.y1))
  }

  function Clip(a: Rect, b: Rect): Rect {
    var r := Rect(Max(a.x0, b.x0), Max(a.y0, b.y0), Min(a.x1, b.x1), Min(a.y1, b.y1));
    if Empty(r) then NOWHERE else r
  }

  predicate Touch(a: Rect, b: Rect) {
    a.x0 <= b.x1 && b.x0 <= a.x1 && a.y0 <= b.y1 && b.y0 <= a.y1
  }

  function Move(a: Rect, dx: int, dy: int): Rect {
    Rect(a.x0 + dx, a.y0 + dy, a.x1 + dx, a.y1 + dy)
  }

  /** What a rectangle means: the pixels in it. */
  predicate Has(a: Rect, x: int, y: int) {
    a.x0 <= x < a.x1 && a.y0 <= y < a.y1
  }

  /** a lies inside b, edge for edge. */
  predicate Inside(a: Rect, b: Rect) {
    b.x0 <= a.x0 && b.y0 <= a.y0 && a.x1 <= b.x1 && a.y1 <= b.y1
  }

  /** Clipping is intersection of the pixels, whatever the operands. */
  lemma ClipIsIntersection(a: Rect, b: Rect)
    ensures forall x, y :: Has(Clip(a, b), x, y) <==> Has(a, x, y) && Has(b, x, y)
    ensures Empty(Clip(a, b)) <==> !exists x, y :: Has(a, x, y) && Has(b, x, y)
    ensures Empty(Clip(a, b)) || (Inside(Clip(a, b), a) && Inside(Clip(a, b), b))
  {
    var c := Clip(a, b);
    if !Empty(c) {
      assert Has(a, c.x0, c.y0) && Has(b, c.x0, c.y0);
    }
  }

  /** The union is the smallest rectangle around both, and no rectangle
      around both leaves it. */
  lemma UnionIsBoundingBox(a: Rect, b: Rect, box: Rect)
    requires Empty(a) || Inside(a, box)
    requires Empty(b) || Inside(b, box)
    ensures Empty(Union(a, b)) || Inside(Union(a, b), box)
    ensures forall x, y :: Has(a, x, y) || Has(b, x, y) ==> Has(Union(a, b), x, y)
  {}
}
