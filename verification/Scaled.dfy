/** The kiosk's own screens on a finer display (internal/framebuffer/scaled.go):
    each of their pixels a square of the device's. */
module Scaled {
  import opened Rects

  type Color(==, !new, 0) = c: int | 0 <= c witness 0

  /** Scale: whole numbers only. */
  function Scale(w: nat, h: nat): (f: nat)
    ensures 1 <= f <= 4
  {
    Max(1, Min(Min(w / 1920, h / 1080), 4))
  }

  /** The factor is the largest of one to four at which the screen is left at
      least 1920 by 1080, if there is one. */
  lemma ScaleIsLargest(w: nat, h: nat, g: nat)
    requires 1 <= g <= 4
    ensures g <= Scale(w, h) <==> g == 1 || (w / g >= 1920 && h / g >= 1080)
  {
    FromPixel(w, g, 1920);
    FromPixel(h, g, 1080);
    FromPixel(w, 1920, g);
    FromPixel(h, 1080, g);
  }

  lemma Scales(a: int, b: int, f: nat)
    requires f >= 1
    ensures a <= b ==> a * f <= b * f
  {
    if a <= b {
      assert b * f == a * f + (b - a) * f;
    }
  }

  /** Which pixel of the image a pixel of the device is of. */
  function Of(x: int, f: nat): (q: int)
    requires f >= 1
    ensures x >= 0 ==> q >= 0
  {
    x / f
  }

  /** By its bounds. */
  lemma FromPixel(x: int, f: nat, q: int)
    requires f >= 1
    ensures q * f <= x <==> q <= Of(x, f)
  {
    assert x == f * (x / f) + x % f;
    assert (x / f + 1) * f == f * (x / f) + f;
    Scales(q, x / f, f);
    Scales(x / f + 1, q, f);
  }

  lemma PixelOf(x: int, f: nat, q: int)
    requires f >= 1
    ensures q * f <= x < q * f + f <==> Of(x, f) == q
  {
    FromPixel(x, f, q);
    FromPixel(x, f, q + 1);
    assert (q + 1) * f == q * f + f;
  }

  // ── The device ─────────────────────────────────────────────────────────────

  method WriteDevice(dev: array2<Color>, x: int, y: int, c: Color)
    modifies dev
    ensures forall j, i :: 0 <= j < dev.Length0 && 0 <= i < dev.Length1 ==>
              dev[j, i] == if j == y && i == x then c else old(dev[j, i])
  {
    if 0 <= x < dev.Length1 && 0 <= y < dev.Length0 {
      dev[y, x] := c;
    }
  }

  /** The device's BlitRect of an image that lies at row top of it. */
  method BlitDevice(dev: array2<Color>, img: array2<Color>, top: int, r: Rect)
    requires dev != img && img.Length1 == dev.Length1
    modifies dev
    ensures forall j, i :: 0 <= j < dev.Length0 && 0 <= i < dev.Length1 ==>
              dev[j, i] == if Has(r, i, j) && 0 <= j - top < img.Length0 then img[j - top, i] else old(dev[j, i])
  {
    forall j, i | 0 <= j < dev.Length0 && 0 <= i < dev.Length1 && Has(r, i, j) && 0 <= j - top < img.Length0 {
      dev[j, i] := img[j - top, i];
    }
  }

  method FillSquare(dev: array2<Color>, left: int, top: int, f: nat, c: Color)
    modifies dev
    ensures forall j, i :: 0 <= j < dev.Length0 && 0 <= i < dev.Length1 ==>
              dev[j, i] == if left <= i < left + f && top <= j < top + f then c else old(dev[j, i])
  {
    for dy := 0 to f
      invariant forall j, i :: 0 <= j < dev.Length0 && 0 <= i < dev.Length1 ==>
                  dev[j, i] == if left <= i < left + f && top <= j < top + dy then c else old(dev[j, i])
    {
      for dx := 0 to f
        invariant forall j, i :: 0 <= j < dev.Length0 && 0 <= i < dev.Length1 ==>
                    dev[j, i] == if (left <= i < left + f && top <= j < top + dy)
                                    || (left <= i < left + dx && j == top + dy) then c else old(dev[j, i])
      {
        WriteDevice(dev, left + dx, top + dy, c);
      }
    }
  }

  class Scaled {
    const dev: array2<Color>
    const f: nat
    const w: nat
    const h: nat
    const wide: array2<Color>

    ghost predicate Valid()
      reads this
    {
      && f >= 1 && w * f <= dev.Length1 && h * f <= dev.Length0
      && dev != wide && wide.Length0 == f && wide.Length1 == dev.Length1
    }

    constructor (dev: array2<Color>, factor: nat)
      requires factor >= 1
      ensures Valid() && this.dev == dev && f == factor && fresh(wide)
      ensures w == dev.Length1 / factor && h == dev.Length0 / factor
    {
      this.dev, f, w, h := dev, factor, dev.Length1 / factor, dev.Length0 / factor;
      wide := new Color[factor, dev.Length1]((j, i) => 0);
      new;
      FromPixel(dev.Length1, factor, dev.Length1 / factor);
      FromPixel(dev.Length0, factor, dev.Length0 / factor);
    }

    /** WritePixel: the square, on the screen, and nothing else. */
    method WritePixel(x: int, y: int, c: Color)
      requires Valid()
      modifies dev
      ensures forall j, i :: 0 <= j < dev.Length0 && 0 <= i < dev.Length1 ==>
                dev[j, i] == if Of(i, f) == x && Of(j, f) == y && x < w && y < h then c else old(dev[j, i])
    {
      forall i: int ensures x * f <= i < x * f + f <==> Of(i, f) == x {
        PixelOf(i, f, x);
      }
      forall j: int ensures y * f <= j < y * f + f <==> Of(j, f) == y {
        PixelOf(j, f, y);
      }
      if x < 0 || x >= w || y < 0 || y >= h {
        return;
      }
      FillSquare(dev, x * f, y * f, f, c);
    }

    /** A row of the image from column lo to hi, widened, f rows tall. */
    method Widen(img: array2<Color>, y: nat, lo: nat, hi: nat)
      requires Valid() && img != wide && y < img.Length0 && lo <= hi <= img.Length1 && hi <= w
      modifies wide
      ensures forall j, i :: 0 <= j < f && 0 <= i < dev.Length1 && lo <= Of(i, f) < hi ==> wide[j, i] == img[y, Of(i, f)]
    {
      Scales(hi, w, f);
      for x := lo to hi
        invariant forall i :: 0 <= i < dev.Length1 && lo <= Of(i, f) < x ==> wide[0, i] == img[y, Of(i, f)]
      {
        Square(img[y, x], x);
      }
      for k := 1 to f
        invariant forall j, i :: 0 <= j < k && 0 <= i < dev.Length1 && lo <= Of(i, f) < hi ==> wide[j, i] == img[y, Of(i, f)]
      {
        forall i | 0 <= i < dev.Length1 && lo <= Of(i, f) < hi {
          wide[k, i] := wide[0, i];
        }
      }
    }

    /** A pixel, f times over, in the first row. */
    method Square(c: Color, x: nat)
      requires Valid() && x < w
      modifies wide
      ensures forall i :: 0 <= i < dev.Length1 ==> wide[0, i] == if Of(i, f) == x then c else old(wide[0, i])
    {
      Scales(x + 1, w, f);
      assert (x + 1) * f == x * f + f;
      forall i: int ensures x * f <= i < x * f + f <==> Of(i, f) == x {
        PixelOf(i, f, x);
      }
      for k := 0 to f
        invariant forall i :: 0 <= i < dev.Length1 ==>
                    wide[0, i] == if x * f <= i < x * f + k then c else old(wide[0, i])
      {
        wide[0, x * f + k] := c;
      }
    }

    /** BlitRect: what of r is on the screen and in the image, each pixel a square
        of the device's, and nothing else. */
    method BlitRect(img: array2<Color>, r: Rect)
      requires Valid() && img != wide && img != dev
      modifies dev, wide
      ensures forall j, i :: 0 <= j < dev.Length0 && 0 <= i < dev.Length1 ==>
                dev[j, i] == if Has(r, Of(i, f), Of(j, f)) && Of(i, f) < w && Of(j, f) < h && Of(i, f) < img.Length1 && Of(j, f) < img.Length0
                             then img[Of(j, f), Of(i, f)] else old(dev[j, i])
    {
      var screen, all := Rect(0, 0, w, h), Rect(0, 0, img.Length1, img.Length0);
      ClipIsIntersection(r, screen);
      ClipIsIntersection(Clip(r, screen), all);
      var c := Clip(Clip(r, screen), all);
      if Empty(c) {
        return;
      }
      for y := c.y0 to c.y1
        invariant forall j, i :: 0 <= j < dev.Length0 && 0 <= i < dev.Length1 ==>
                    dev[j, i] == if c.x0 <= Of(i, f) < c.x1 && c.y0 <= Of(j, f) < y then img[Of(j, f), Of(i, f)] else old(dev[j, i])
      {
        Widen(img, y, c.x0, c.x1);
        BlitRow(img, y, c.x0, c.x1);
      }
    }

    method BlitRow(img: array2<Color>, y: nat, lo: nat, hi: nat)
      requires Valid() && img != wide && img != dev && y < img.Length0 && lo <= hi <= img.Length1 && hi <= w && y < h
      requires forall j, i :: 0 <= j < f && 0 <= i < dev.Length1 && lo <= Of(i, f) < hi ==> wide[j, i] == img[y, Of(i, f)]
      modifies dev
      ensures forall j, i :: 0 <= j < dev.Length0 && 0 <= i < dev.Length1 ==>
                dev[j, i] == if lo <= Of(i, f) < hi && Of(j, f) == y then img[y, Of(i, f)] else old(dev[j, i])
    {
      forall i: int ensures lo * f <= i < hi * f <==> lo <= Of(i, f) < hi {
        FromPixel(i, f, lo);
        FromPixel(i, f, hi);
      }
      forall j: int ensures y * f <= j < y * f + f <==> Of(j, f) == y {
        PixelOf(j, f, y);
      }
      BlitDevice(dev, wide, y * f, Rect(lo * f, y * f, hi * f, y * f + f));
    }
  }
}
