/** What several modules need. */
module Helpers {
  import opened Rects

  datatype Option<T> = None | Some(value: T)

  /** min(max(v, lo), hi). */
  function Clamp(v: int, lo: int, hi: int): int {
    var w := if v < lo then lo else v;
    if w > hi then hi else w
  }

  /** BlitRect of a device: a part of an image of its own size. */
  method BlitRect<Color>(fb: array2<Color>, img: array2<Color>, r: Rect)
    requires fb != img && img.Length0 == fb.Length0 && img.Length1 == fb.Length1
    modifies fb
    ensures forall y, x :: 0 <= y < fb.Length0 && 0 <= x < fb.Length1 ==>
              fb[y, x] == if Has(r, x, y) then img[y, x] else old(fb[y, x])
  {
    var screen := Rect(0, 0, fb.Length1, fb.Length0);
    ClipIsIntersection(r, screen);
    var c := Clip(r, screen);
    if Empty(c) {
      return;
    }
    var y := c.y0;
    while y < c.y1
      invariant c.y0 <= y <= c.y1
      invariant forall i, x :: 0 <= i < fb.Length0 && 0 <= x < fb.Length1 ==>
                  fb[i, x] == if Has(c, x, i) && i < y then img[i, x] else old(fb[i, x])
    {
      forall x | c.x0 <= x < c.x1 {
        fb[y, x] := img[y, x];
      }
      y := y + 1;
    }
  }
}
