/** The pointer over the kiosk's own screens (internal/ui/render.go:10-91;
    DrawCursor, internal/ui/draw.go:211-227). */
module SoftPointer {
  import opened Helpers
  import opened Rects

  type Color(==, !new, 0) = c: int | 0 <= c witness 0

  /** A screen without the pointer. */
  type Picture = (int, int) -> Color

  /** The sprite: what drawing it does to a pixel, which for a transparent one is
      nothing. */
  datatype Sprite = Sprite(w: nat, h: nat, blend: (int, int, Color) -> Color)

  /** A full render: the screen with the pointer at (px, py). */
  function Rendered(base: Picture, sprite: Sprite, px: int, py: int, x: int, y: int): Color {
    if Has(Rect(px, py, px + sprite.w, py + sprite.h), x, y) then sprite.blend(x - px, y - py, base(x, y))
    else base(x, y)
  }

  ghost predicate Holds(img: array2<Color>, base: Picture)
    reads img
  {
    forall y, x :: 0 <= y < img.Length0 && 0 <= x < img.Length1 ==> img[y, x] == base(x, y)
  }

  ghost predicate HoldsRendered(img: array2<Color>, base: Picture, sprite: Sprite, px: int, py: int)
    reads img
  {
    forall y, x :: 0 <= y < img.Length0 && 0 <= x < img.Length1 ==> img[y, x] == Rendered(base, sprite, px, py, x, y)
  }

  /** draw.Draw of a part of src, from (sx, sy), over all of dst. */
  method CopyTo(dst: array2<Color>, src: array2<Color>, sx: int, sy: int, ghost base: Picture)
    requires dst != src && 0 <= sx && 0 <= sy && Holds(src, base)
    modifies dst
    ensures forall y, x :: 0 <= y < dst.Length0 && 0 <= x < dst.Length1 ==>
              dst[y, x] == if y + sy < src.Length0 && x + sx < src.Length1 then base(x + sx, y + sy) else old(dst[y, x])
  {
    forall y, x | 0 <= y < dst.Length0 && y + sy < src.Length0 && 0 <= x < dst.Length1 && x + sx < src.Length1 {
      dst[y, x] := src[y + sy, x + sx];
    }
  }

  /** draw.Draw of src, from its origin, over r of dst. */
  method CopyAt(dst: array2<Color>, r: Rect, src: array2<Color>)
    requires dst != src && (Empty(r) || Inside(r, Rect(0, 0, dst.Length1, dst.Length0)))
    requires Empty(r) || (r.x1 - r.x0 <= src.Length1 && r.y1 - r.y0 <= src.Length0)
    modifies dst
    ensures forall y, x :: 0 <= y < dst.Length0 && 0 <= x < dst.Length1 ==>
              dst[y, x] == if Has(r, x, y) then src[y - r.y0, x - r.x0] else old(dst[y, x])
  {
    if !Empty(r) {
      forall y, x | r.y0 <= y < r.y1 && r.x0 <= x < r.x1 {
        dst[y, x] := src[y - r.y0, x - r.x0];
      }
    }
  }

  method DrawCursor(img: array2<Color>, sprite: Sprite, x: int, y: int)
    modifies img
    ensures forall j, i :: 0 <= j < img.Length0 && 0 <= i < img.Length1 ==>
              img[j, i] == if Has(Rect(x, y, x + sprite.w, y + sprite.h), i, j)
                           then sprite.blend(i - x, j - y, old(img[j, i])) else old(img[j, i])
  {
    for row := 0 to sprite.h
      invariant forall j, i :: 0 <= j < img.Length0 && 0 <= i < img.Length1 ==>
                  img[j, i] == if Has(Rect(x, y, x + sprite.w, y + row), i, j)
                               then sprite.blend(i - x, j - y, old(img[j, i])) else old(img[j, i])
    {
      for col := 0 to sprite.w
        invariant forall j, i :: 0 <= j < img.Length0 && 0 <= i < img.Length1 ==>
                    img[j, i] == if Has(Rect(x, y, x + sprite.w, y + row), i, j) || (j == y + row && x <= i < x + col)
                                 then sprite.blend(i - x, j - y, old(img[j, i])) else old(img[j, i])
      {
        if 0 <= y + row < img.Length0 && 0 <= x + col < img.Length1 {
          img[y + row, x + col] := sprite.blend(col, row, img[y + row, x + col]);
        }
      }
    }
  }

  class Pointer {
    const sprite: Sprite
    var drawn: bool
    var x: int
    var y: int
    var at: Rect
    var under: array2?<Color>

    constructor (sprite: Sprite)
      ensures this.sprite == sprite && !drawn && under == null
    {
      this.sprite, drawn, x, y, at, under := sprite, false, 0, 0, NOWHERE, null;
    }

    /** What is saved of the screen: what it has at at. */
    ghost predicate Saved(base: Picture)
      reads this, under
    {
      && under != null && under.Length0 == sprite.h && under.Length1 == sprite.w
      && forall j, i :: 0 <= j < at.y1 - at.y0 && 0 <= i < at.x1 - at.x0 ==>
           j < sprite.h && i < sprite.w && under[j, i] == base(i + at.x0, j + at.y0)
    }

    /** Where the pointer at (x, y) lies on an image. */
    function Where(img: array2<Color>, x: int, y: int): Rect {
      Clip(Rect(x, y, x + sprite.w, y + sprite.h), Rect(0, 0, img.Length1, img.Length0))
    }

    lemma WhereIsIt(img: array2<Color>, x: int, y: int)
      ensures forall i, j :: Has(Where(img, x, y), i, j) <==>
                Has(Rect(x, y, x + sprite.w, y + sprite.h), i, j) && 0 <= i < img.Length1 && 0 <= j < img.Length0
      ensures var r := Where(img, x, y);
              && (Empty(r) || (Inside(r, Rect(0, 0, img.Length1, img.Length0))
                               && r.x1 - r.x0 <= sprite.w && r.y1 - r.y0 <= sprite.h))
              && 0 <= r.x0 && 0 <= r.y0
    {
      ClipIsIntersection(Rect(x, y, x + sprite.w, y + sprite.h), Rect(0, 0, img.Length1, img.Length0));
    }

    /** img is base with the pointer drawn in, and under has what it hides. */
    ghost predicate Over(img: array2<Color>, base: Picture)
      reads this, img, under
    {
      && drawn && under != img && at == Where(img, x, y)
      && HoldsRendered(img, base, sprite, x, y) && Saved(base)
    }

    method Save(img: array2<Color>, ghost base: Picture)
      requires under == null || (under != img && under.Length0 == sprite.h && under.Length1 == sprite.w)
      requires Holds(img, base) && at == Where(img, x, y)
      modifies `under, under
      ensures Saved(base) && under != img && (under == old(under) || fresh(under))
    {
      if under == null {
        under := new Color[sprite.h, sprite.w]((j, i) => 0);
      }
      WhereIsIt(img, x, y);
      CopyTo(under, img, at.x0, at.y0, base);
    }

    method Draw(img: array2<Color>, x: int, y: int, ghost base: Picture)
      requires under == null || (under != img && under.Length0 == sprite.h && under.Length1 == sprite.w)
      requires Holds(img, base)
      modifies this, under, img
      ensures Over(img, base) && this.x == x && this.y == y
      ensures under == old(under) || fresh(under)
    {
      drawn, this.x, this.y := true, x, y;
      at := Where(img, x, y);
      Save(img, base);
      DrawCursor(img, sprite, x, y);
    }

    method Restore(img: array2<Color>, ghost base: Picture)
      requires Over(img, base)
      modifies img
      ensures Holds(img, base)
    {
      WhereIsIt(img, x, y);
      CopyAt(img, at, under);
    }

    /** The device and the back buffer show what a full render would. */
    ghost predicate Shown(fb: array2<Color>, back: array2<Color>, base: Picture)
      reads this, fb, back, under
    {
      && fb != back && fb != under && fb.Length0 == back.Length0 && fb.Length1 == back.Length1
      && Over(back, base) && HoldsRendered(fb, base, sprite, x, y)
    }

    /** Render, once the screen's own renderer has filled the back buffer. */
    method Render(fb: array2<Color>, back: array2<Color>, x: int, y: int, ghost base: Picture)
      requires fb != back && fb != under && fb.Length0 == back.Length0 && fb.Length1 == back.Length1
      requires under == null || (under != back && under.Length0 == sprite.h && under.Length1 == sprite.w)
      requires Holds(back, base)
      modifies this, under, fb, back
      ensures Shown(fb, back, base) && this.x == x && this.y == y
      ensures under == old(under) || fresh(under)
    {
      Draw(back, x, y, base);
      BlitRect(fb, back, Rect(0, 0, back.Length1, back.Length0));
    }

    /** The two squares, put on a screen that shows the pointer at (x, y). */
    method BlitBoth(fb: array2<Color>, back: array2<Color>, x: int, y: int, left: Rect, ghost base: Picture)
      requires fb != back && fb.Length0 == back.Length0 && fb.Length1 == back.Length1
      requires HoldsRendered(fb, base, sprite, x, y) && left == Where(back, x, y)
      requires HoldsRendered(back, base, sprite, this.x, this.y) && at == Where(back, this.x, this.y)
      modifies fb
      ensures HoldsRendered(fb, base, sprite, this.x, this.y)
    {
      WhereIsIt(back, x, y);
      WhereIsIt(back, this.x, this.y);
      BlitRect(fb, back, left);
      BlitRect(fb, back, at);
    }

    /** The screen is then as Render would have left it with the pointer at (x, y);
        a screen nothing was rendered on stays as it is. */
    method MovePointer(fb: array2<Color>, back: array2<Color>, x: int, y: int, ghost base: Picture)
      requires drawn ==> Shown(fb, back, base)
      modifies this, under, fb, back
      ensures drawn == old(drawn)
      ensures drawn ==> Shown(fb, back, base) && this.x == x && this.y == y
      ensures !drawn ==> forall j, i :: 0 <= j < fb.Length0 && 0 <= i < fb.Length1 ==> fb[j, i] == old(fb[j, i])
    {
      if !drawn || (this.x == x && this.y == y) {
        return;
      }
      var left, x0, y0 := at, this.x, this.y;
      Restore(back, base);
      Draw(back, x, y, base);
      BlitBoth(fb, back, x0, y0, left, base);
    }
  }
}
