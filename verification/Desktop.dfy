/** What a display is to show: the session's desktop where it reaches, black
    elsewhere, the pointer blended over it (engine/kms.c:751-806). */
module Desktop {
  import opened Rects

  type Byte = n: int | 0 <= n < 256

  /** A 32-bit word of a frame or a cursor image, taken apart. */
  datatype Pixel = Pixel(a: Byte, r: Byte, g: Byte, b: Byte)

  const BLACK := Pixel(0, 0, 0, 0)

  type Image = (int, int) -> Pixel

  /** kms.src and where it lies on the desktop. */
  datatype Source = Source(px: Image, present: bool, sw: int, sh: int, ox: int, oy: int)

  /** The pointer, its hot spot at (px, py), on display pout. */
  datatype Pointer = Pointer(
    img: Image, loaded: bool, iw: int, ih: int, hx: int, hy: int,
    visible: bool, px: int, py: int, pout: int)

  /** A display's place on the desktop. */
  datatype Place = Place(x: int, y: int, w: int, h: int)

  /** One instant of all that is shown; soft says the pointer is drawn into the
      frames rather than on a cursor plane. */
  datatype View = View(src: Source, ptr: Pointer, soft: bool)

  predicate On(o: Place, x: int, y: int) {
    0 <= x < o.w && 0 <= y < o.h
  }

  function Whole(o: Place): Rect {
    Rect(0, 0, o.w, o.h)
  }

  /** source_pixel, in desktop coordinates. */
  function SourcePixel(s: Source, x: int, y: int): Pixel {
    var sx, sy := x - s.ox, y - s.oy;
    if !s.present || sx < 0 || sy < 0 || sx >= s.sw || sy >= s.sh then BLACK else s.px(sx, sy)
  }

  /** source_pixel at a pixel of display o. */
  function Desk(o: Place, s: Source, x: int, y: int): Pixel {
    SourcePixel(s, x + o.x, y + o.y)
  }

  function PointerRect(o: Place, p: Pointer, soft: bool): Rect {
    if !soft then NOWHERE
    else
      var c := Rect(p.px - p.hx, p.py - p.hy, p.px - p.hx + p.iw, p.py - p.hy + p.ih);
      Clip(Move(c, -o.x, -o.y), Whole(o))
  }

  /** One colour channel of the pointer over the desktop, premultiplied. */
  function Over(p: Byte, q: Byte, a: Byte): Byte {
    Product(q, 255 - a);
    Min(p + (q * (255 - a) + 127) / 255, 255)
  }

  function Blend(p: Pixel, q: Pixel): Pixel {
    if p.a == 255 then p else Pixel(0, Over(p.r, q.r, p.a), Over(p.g, q.g, p.a), Over(p.b, q.b, p.a))
  }

  /** The pointer image's pixel that falls on (x, y) of display o. */
  function PointerPixel(o: Place, p: Pointer, x: int, y: int): Pixel {
    p.img(x - (p.px - p.hx - o.x), y - (p.py - p.hy - o.y))
  }

  /** The frame display o should show at view v. */
  function Frame(o: Place, v: View, x: int, y: int): Pixel {
    var q := Desk(o, v.src, x, y);
    if Has(PointerRect(o, v.ptr, v.soft), x, y) then Blend(PointerPixel(o, v.ptr, x, y), q) else q
  }

  /** Pixel (x, y) of a display is one of the pointer's. */
  predicate Under(o: Place, p: Pointer, x: int, y: int) {
    On(o, x, y) && 0 <= x + o.x - (p.px - p.hx) < p.iw && 0 <= y + o.y - (p.py - p.hy) < p.ih
  }

  /** The frame of a view with the pointer in it has each of the image's pixels,
      blended, where the hot spot says. */
  lemma FrameHasPointer(o: Place, v: View, x: int, y: int)
    requires v.soft && On(o, x, y)
    ensures var p := v.ptr;
            Frame(o, v, x, y) ==
              if Under(o, p, x, y) then Blend(p.img(x + o.x - (p.px - p.hx), y + o.y - (p.py - p.hy)), Desk(o, v.src, x, y))
              else Desk(o, v.src, x, y)
    ensures Under(o, v.ptr, x, y) ==> !Empty(PointerRect(o, v.ptr, true))
  {
    var p := v.ptr;
    ClipIsIntersection(Move(Rect(p.px - p.hx, p.py - p.hy, p.px - p.hx + p.iw, p.py - p.hy + p.ih), -o.x, -o.y), Whole(o));
  }

  /** A premultiplied pixel is never cut off, so blending is the rounded mean
      it stands for; a clear one leaves the desktop as it is. */
  lemma BlendIsTheRoundedMean(p: Byte, q: Byte, a: Byte)
    requires p <= a
    ensures 255 * (Over(p, q, a) - p) <= q * (255 - a) + 127 < 255 * (Over(p, q, a) - p) + 255
    ensures a == 0 ==> Over(p, q, a) == q
  {
    var m := q * (255 - a);
    Product(255 - q, 255 - a);
    assert (255 - q) * (255 - a) == 255 * (255 - a) - m;
    Rounded(m, 255 - a);
    if a == 0 {
      assert m == 255 * q;
    }
  }

  /** z is p over q, where p covers a of 255. */
  predicate Mean(z: Byte, p: Byte, q: Byte, a: Byte) {
    255 * (z - p) <= q * (255 - a) + 127 < 255 * (z - p) + 255
  }

  lemma OneColour(p: Byte, q: Byte, a: Byte)
    requires p <= a
    ensures Mean(if a == 255 then p else Over(p, q, a), p, q, a)
    ensures a == 0 ==> Over(p, q, a) == q
  {
    BlendIsTheRoundedMean(p, q, a);
    if a == 255 {
      assert q * (255 - a) == 0;
    }
  }

  /** Each colour of a premultiplied pixel goes over the same of the desktop. */
  lemma BlendIsByColour(p: Pixel, q: Pixel)
    requires p.r <= p.a && p.g <= p.a && p.b <= p.a
    ensures var z := Blend(p, q); Mean(z.r, p.r, q.r, p.a) && Mean(z.g, p.g, q.g, p.a) && Mean(z.b, p.b, q.b, p.a)
    ensures var z := Blend(p, q); p.a == 0 ==> (z.r, z.g, z.b) == (q.r, q.g, q.b)
    ensures p.a == 255 ==> Blend(p, q) == p
  {
    OneColour(p.r, q.r, p.a);
    OneColour(p.g, q.g, p.a);
    OneColour(p.b, q.b, p.a);
  }

  /** Where a pixel of the session lies on a display; the rest is black. */
  lemma SessionLies(o: Place, s: Source, i: int, j: int, x: int, y: int)
    ensures s.present && 0 <= i < s.sw && 0 <= j < s.sh ==> Desk(o, s, i + s.ox - o.x, j + s.oy - o.y) == s.px(i, j)
    ensures !s.present || !Has(Rect(s.ox, s.oy, s.ox + s.sw, s.oy + s.sh), x + o.x, y + o.y) ==> Desk(o, s, x, y) == BLACK
  {}

  lemma Product(a: nat, b: nat)
    ensures a * b >= 0
  {}

  lemma Rounded(m: int, k: int)
    requires m <= 255 * k
    ensures (m + 127) / 255 <= k
    ensures 255 * ((m + 127) / 255) <= m + 127 < 255 * ((m + 127) / 255) + 255
  {}

  /** set_source: where a session of w x h goes on a desktop of dw x dh whose
      displays are outs. */
  function Origin(outs: seq<Place>, dw: int, dh: int, w: int, h: int): (int, int)
    requires |outs| > 0
  {
    var p := outs[0];
    if |outs| > 1 && w <= p.w && h <= p.h then
      (p.x + (p.w - w) / 2, p.y + (p.h - h) / 2)
    else
      (if w < dw then (dw - w) / 2 else 0, if h < dh then (dh - h) / 2 else 0)
  }

  /** A session no larger than the desktop lies wholly on it, centred to within
      a pixel — and on the first display alone, where it fits there. */
  lemma SessionIsCentred(outs: seq<Place>, dw: int, dh: int, w: int, h: int)
    requires |outs| > 0
    ensures var (ox, oy) := Origin(outs, dw, dh, w, h);
            var p := outs[0];
            if |outs| > 1 && w <= p.w && h <= p.h then
              && Inside(Rect(ox, oy, ox + w, oy + h), Rect(p.x, p.y, p.x + p.w, p.y + p.h))
              && 0 <= (p.x + p.w - ox - w) - (ox - p.x) <= 1
              && 0 <= (p.y + p.h - oy - h) - (oy - p.y) <= 1
            else
              && (w <= dw ==> 0 <= ox && ox + w <= dw && 0 <= (dw - ox - w) - ox <= 1)
              && (h <= dh ==> 0 <= oy && oy + h <= dh && 0 <= (dh - oy - h) - oy <= 1)
  {}
}
