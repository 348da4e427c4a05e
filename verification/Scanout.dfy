/** The loops that draw into a scanout buffer (engine/kms.c:711-806). Memory is
    row by row, mem[y, x], with a pitch that may be wider than the display. */
module Scanout {
  import opened Rects
  import opened Desktop

  /** fill_black. */
  method FillBlack(mem: array2<Pixel>, r: Rect)
    requires Empty(r) || Inside(r, Rect(0, 0, mem.Length1, mem.Length0))
    modifies mem
    ensures forall y, x :: 0 <= y < mem.Length0 && 0 <= x < mem.Length1 ==>
              mem[y, x] == if Has(r, x, y) then BLACK else old(mem[y, x])
  {
    if Empty(r) {
      return;
    }
    var y := r.y0;
    while y < r.y1
      invariant r.y0 <= y <= r.y1
      invariant forall i, x :: 0 <= i < mem.Length0 && 0 <= x < mem.Length1 ==>
                  mem[i, x] == if Has(r, x, i) && i < y then BLACK else old(mem[i, x])
    {
      forall x | r.x0 <= x < r.x1 {
        mem[y, x] := BLACK;
      }
      y := y + 1;
    }
  }

  /** The desktop and the pointer, as struct kms holds them. */
  class Kms {
    var src: array2?<Pixel>
    var sw: int
    var sh: int
    var ox: int
    var oy: int

    var img: array2?<Pixel>
    var iw: int
    var ih: int
    var hx: int
    var hy: int
    var visible: bool
    var px: int
    var py: int
    var pout: int
    var onHw: seq<bool>

    /** One display, no desktop and no pointer yet. */
    constructor ()
      ensures src == null && img == null && !visible && onHw == [false]
      ensures (sw, sh, ox, oy) == (0, 0, 0, 0) && (iw, ih, hx, hy, px, py, pout) == (0, 0, 0, 0, 0, 0, 0)
    {
      src, img := null, null;
      sw, sh, ox, oy, iw, ih, hx, hy, px, py, pout := 0, 0, 0, 0, 0, 0, 0, 0, 0, 0, 0;
      visible, onHw := false, [false];
    }

    /** The source buffer holds what s says: sh rows of at least sw pixels. */
    ghost predicate Holds(s: Source)
      reads this, src
    {
      && s.present == (src != null)
      && (s.sw, s.sh, s.ox, s.oy) == (sw, sh, ox, oy)
      && (src != null ==>
            && sh <= src.Length0 && sw <= src.Length1
            && forall y, x :: 0 <= y < sh && 0 <= x < sw ==> src[y, x] == s.px(x, y))
    }

    /** The cursor holds what p says. */
    ghost predicate Points(p: Pointer)
      reads this, img
    {
      && p.loaded == (img != null)
      && p.visible == visible
      && (p.iw, p.ih, p.hx, p.hy, p.px, p.py, p.pout) == (iw, ih, hx, hy, px, py, pout)
      && (img != null ==>
            && ih <= img.Length0 && iw <= img.Length1
            && forall y, x :: 0 <= y < ih && 0 <= x < iw ==> img[y, x] == p.img(x, y))
    }

    /** sw_pointer. */
    predicate SwPointer()
      reads this
    {
      visible && img != null && !(0 <= pout < |onHw| && onHw[pout])
    }

    /** fill: whatever the buffer held, the rectangle shows the desktop
        afterwards, and nothing outside it is touched. */
    method Fill(ghost s: Source, o: Place, mem: array2<Pixel>, r: Rect)
      requires Holds(s) && mem != src
      requires o.w <= mem.Length1 && o.h <= mem.Length0
      requires !Empty(r) && Inside(r, Whole(o))
      modifies mem
      ensures forall y, x :: 0 <= y < mem.Length0 && 0 <= x < mem.Length1 ==>
                mem[y, x] == if Has(r, x, y) then Desk(o, s, x, y) else old(mem[y, x])
    {
      var reach := Rect(ox, oy, ox + sw, oy + sh);
      var inn := if src != null then Clip(Move(r, o.x, o.y), reach) else NOWHERE;
      ClipIsIntersection(Move(r, o.x, o.y), reach);
      if Empty(inn) {
        forall x, y | Has(r, x, y) ensures Desk(o, s, x, y) == BLACK {
          assert Has(Move(r, o.x, o.y), x + o.x, y + o.y);
        }
        FillBlack(mem, r);
        return;
      }
      inn := Move(inn, -o.x, -o.y);
      assert Inside(inn, r);
      forall x, y | Has(r, x, y) ensures Has(inn, x, y) || Desk(o, s, x, y) == BLACK {
        assert Has(inn, x, y) <==> Has(reach, x + o.x, y + o.y);
      }
      FillBlack(mem, Rect(r.x0, r.y0, r.x1, inn.y0));
      FillBlack(mem, Rect(r.x0, inn.y1, r.x1, r.y1));
      FillBlack(mem, Rect(r.x0, inn.y0, inn.x0, inn.y1));
      FillBlack(mem, Rect(inn.x1, inn.y0, r.x1, inn.y1));
      CopyRows(s, o, mem, inn);
    }

    /** fill's copy: the rows of the source that lie under a rectangle. */
    method CopyRows(ghost s: Source, o: Place, mem: array2<Pixel>, inn: Rect)
      requires Holds(s) && src != null && mem != src
      requires !Empty(inn) && Inside(inn, Rect(0, 0, mem.Length1, mem.Length0))
      requires Inside(Move(inn, o.x, o.y), Rect(ox, oy, ox + sw, oy + sh))
      modifies mem
      ensures forall y, x :: 0 <= y < mem.Length0 && 0 <= x < mem.Length1 ==>
                mem[y, x] == if Has(inn, x, y) then Desk(o, s, x, y) else old(mem[y, x])
    {
      var y, sy := inn.y0, inn.y0 + o.y - oy;
      while y < inn.y1
        invariant inn.y0 <= y <= inn.y1 && sy == y + o.y - oy
        invariant forall i, x :: 0 <= i < mem.Length0 && 0 <= x < mem.Length1 ==>
                    mem[i, x] == if Has(inn, x, i) && i < y then Desk(o, s, x, i) else old(mem[i, x])
      {
        forall x | inn.x0 <= x < inn.x1 {
          mem[y, x] := src[sy, x + o.x - ox];
        }
        y, sy := y + 1, sy + 1;
      }
    }

    /** draw_pointer: the pointer blended over the source, whatever the buffer
        held; v is where, for the buffer to remember. */
    method DrawPointer(ghost s: Source, ghost p: Pointer, o: Place, mem: array2<Pixel>) returns (v: Rect)
      requires Holds(s) && Points(p) && mem != src && mem != img
      requires o.w <= mem.Length1 && o.h <= mem.Length0
      modifies mem
      ensures v == PointerRect(o, p, SwPointer())
      ensures forall y, x :: 0 <= y < mem.Length0 && 0 <= x < mem.Length1 ==>
                mem[y, x] == if Has(v, x, y) then Frame(o, View(s, p, SwPointer()), x, y)
                             else old(mem[y, x])
    {
      var c := Rect(px - hx, py - hy, px - hx + iw, py - hy + ih);
      v := if SwPointer() then Clip(Move(c, -o.x, -o.y), Whole(o)) else NOWHERE;
      if Empty(v) {
        return;
      }
      var x0, y0 := px - hx - o.x, py - hy - o.y;
      ghost var view := View(s, p, SwPointer());
      var y := v.y0;
      while y < v.y1
        invariant v.y0 <= y <= v.y1
        invariant forall i, j :: 0 <= i < mem.Length0 && 0 <= j < mem.Length1 ==>
                    mem[i, j] == if Has(v, j, i) && i < y then Frame(o, view, j, i) else old(mem[i, j])
      {
        var x := v.x0;
        while x < v.x1
          invariant v.x0 <= x <= v.x1
          invariant forall i, j :: 0 <= i < mem.Length0 && 0 <= j < mem.Length1 ==>
                      mem[i, j] == if Has(v, j, i) && (i < y || (i == y && j < x)) then Frame(o, view, j, i)
                                   else old(mem[i, j])
        {
          var w := img[y - y0, x - x0];
          if w.a == 255 {
            mem[y, x] := w;
          } else {
            var q := SourceWord(s, x + o.x, y + o.y);
            mem[y, x] := Pixel(0, Over(w.r, q.r, w.a), Over(w.g, q.g, w.a), Over(w.b, q.b, w.a));
          }
          x := x + 1;
        }
        y := y + 1;
      }
    }

    /** source_pixel, from the buffer. */
    method SourceWord(ghost s: Source, x: int, y: int) returns (q: Pixel)
      requires Holds(s)
      ensures q == SourcePixel(s, x, y)
    {
      var sx, sy := x - ox, y - oy;
      if src == null || sx < 0 || sy < 0 || sx >= sw || sy >= sh {
        return BLACK;
      }
      q := src[sy, sx];
    }
  }
}
