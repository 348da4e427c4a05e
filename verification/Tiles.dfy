/** The session's picture, put together from tiles, and the pointer drawn over
    it (internal/rdp/framewriter.go). The screen's pixel format is left out. */
module Tiles {
  import opened Helpers
  import opened Rects

  datatype Color = Color(r: int, g: int, b: int)

  const BLANK := Color(0, 0, 0)
  const CURSOR := Color(255, 255, 100)
  const DOT := Color(255, 80, 80)
  const ARM := 6

  /** An image of an update, or nil: where it lies on the remote desktop, and its
      pixels there. */
  datatype Tile = NoTile | Tile(r: Rect, px: (int, int) -> Color)

  predicate Covers(t: Tile, x: int, y: int) {
    t.Tile? && Has(t.r, x, y)
  }

  /** What the last tile painted at (x, y) has there, if any was. */
  function LastTile(tiles: seq<Tile>, x: int, y: int): Option<Color> {
    if tiles == [] then None
    else
      var t := tiles[|tiles| - 1];
      if Covers(t, x, y) then Some(t.px(x, y)) else LastTile(tiles[..|tiles| - 1], x, y)
  }

  lemma OneMore(tiles: seq<Tile>, t: Tile, x: int, y: int)
    ensures LastTile(tiles + [t], x, y) == if Covers(t, x, y) then Some(t.px(x, y)) else LastTile(tiles, x, y)
  {
    assert (tiles + [t])[..|tiles|] == tiles;
  }

  /** The crosshair of a pointer at (cx, cy). */
  predicate Cross(cx: int, cy: int, x: int, y: int) {
    (y == cy && -ARM <= x - cx <= ARM) || (x == cx && -ARM <= y - cy <= ARM)
  }

  function CrossColor(cx: int, cy: int, x: int, y: int): Color {
    if x == cx && y == cy then DOT else CURSOR
  }

  /** WritePixel of a device: a pixel off the screen is none. */
  method WritePixel(fb: array2<Color>, x: int, y: int, c: Color)
    modifies fb
    ensures forall i, j :: 0 <= i < fb.Length0 && 0 <= j < fb.Length1 ==>
              fb[i, j] == if i == y && j == x then c else old(fb[i, j])
  {
    if x < 0 || x >= fb.Length1 || y < 0 || y >= fb.Length0 {
      return;
    }
    fb[y, x] := c;
  }

  class FrameWriter {
    const fb: array2<Color>
    var canvas: array2?<Color>
    var cursorX: int
    var cursorY: int
    var cursorVisible: bool

    /** Every tile so far. */
    ghost var tiles: seq<Tile>

    predicate OnPointer(x: int, y: int)
      reads this
    {
      cursorVisible && Cross(cursorX, cursorY, x, y)
    }

    /** The canvas has every pixel a tile has covered. */
    ghost predicate Assembled()
      reads this, canvas
    {
      && (canvas == null ==> forall x, y :: LastTile(tiles, x, y) == None || !Has(Screen(), x, y))
      && (canvas != null ==>
            && canvas != fb && canvas.Length0 == fb.Length0 && canvas.Length1 == fb.Length1
            && forall y, x :: 0 <= y < fb.Length0 && 0 <= x < fb.Length1 ==>
                 LastTile(tiles, x, y).Some? ==> canvas[y, x] == LastTile(tiles, x, y).value)
    }

    /** Outside the pointer, a pixel some tile has covered shows the last. */
    ghost predicate ShowsTiles()
      reads this, fb
    {
      forall y, x :: 0 <= y < fb.Length0 && 0 <= x < fb.Length1 && !OnPointer(x, y) ==>
        LastTile(tiles, x, y).Some? ==> fb[y, x] == LastTile(tiles, x, y).value
    }

    ghost predicate ShowsPointer()
      reads this, fb
    {
      forall y, x :: 0 <= y < fb.Length0 && 0 <= x < fb.Length1 && OnPointer(x, y) ==>
        fb[y, x] == CrossColor(cursorX, cursorY, x, y)
    }

    /** What holds between calls: every pixel some tile has covered shows the
        last tile painted there, but exactly the pointer's, which show it. */
    ghost predicate Valid()
      reads this, fb, canvas
    {
      Assembled() && ShowsTiles() && ShowsPointer()
    }

    function Screen(): Rect {
      Rect(0, 0, fb.Length1, fb.Length0)
    }

    constructor (fb: array2<Color>)
      ensures this.fb == fb && canvas == null && tiles == [] && !cursorVisible && Valid()
    {
      this.fb, canvas, tiles := fb, null, [];
      cursorX, cursorY, cursorVisible := 0, 0, false;
    }

    /** cursorRect. */
    function CursorRect(): Rect
      reads this
    {
      Clip(Rect(cursorX - ARM, cursorY - ARM, cursorX + ARM + 1, cursorY + ARM + 1), Screen())
    }

    lemma CursorRectHolds()
      ensures forall x, y :: Has(Screen(), x, y) && Cross(cursorX, cursorY, x, y) ==> Has(CursorRect(), x, y)
      ensures forall x, y :: Has(CursorRect(), x, y) ==> Has(Screen(), x, y)
    {
      ClipIsIntersection(Rect(cursorX - ARM, cursorY - ARM, cursorX + ARM + 1, cursorY + ARM + 1), Screen());
    }

    /** paintCursor: exactly the crosshair's pixels on the screen change. */
    method PaintCursor()
      modifies fb
      ensures forall y, x :: 0 <= y < fb.Length0 && 0 <= x < fb.Length1 ==>
                fb[y, x] == if Cross(cursorX, cursorY, x, y) then CrossColor(cursorX, cursorY, x, y)
                            else old(fb[y, x])
    {
      var r := CursorRect();
      CursorRectHolds();
      ClipIsIntersection(Rect(cursorX - ARM, cursorY - ARM, cursorX + ARM + 1, cursorY + ARM + 1), Screen());
      if Empty(r) {
        return;
      }
      for x := r.x0 to r.x1
        invariant forall i, j :: 0 <= i < fb.Length0 && 0 <= j < fb.Length1 ==>
                    fb[i, j] == if i == cursorY && r.x0 <= j < x then CURSOR else old(fb[i, j])
      {
        WritePixel(fb, x, cursorY, CURSOR);
      }
      for y := r.y0 to r.y1
        invariant forall i, j :: 0 <= i < fb.Length0 && 0 <= j < fb.Length1 ==>
                    fb[i, j] == if (i == cursorY && r.x0 <= j < r.x1) || (j == cursorX && r.y0 <= i < y) then CURSOR
                                else old(fb[i, j])
      {
        WritePixel(fb, cursorX, y, CURSOR);
      }
      WritePixel(fb, cursorX, cursorY, DOT);
    }

    /** draw.Draw of a tile onto the canvas. */
    method Draw(img: array2<Color>, t: Tile, r: Rect)
      requires t.Tile? && r == Clip(t.r, Rect(0, 0, img.Length1, img.Length0))
      modifies img
      ensures forall y, x :: 0 <= y < img.Length0 && 0 <= x < img.Length1 ==>
                img[y, x] == if Covers(t, x, y) then t.px(x, y) else old(img[y, x])
    {
      ClipIsIntersection(t.r, Rect(0, 0, img.Length1, img.Length0));
      forall y, x | r.y0 <= y < r.y1 && r.x0 <= x < r.x1 {
        img[y, x] := t.px(x, y);
      }
    }

    /** A tile of an update: the pointer may be left painted over, if it is hit. */
    method WriteTile(t: Tile, hit: bool) returns (hit': bool)
      requires canvas != null && Assembled() && ShowsTiles() && (hit || ShowsPointer())
      modifies this`tiles, canvas, fb
      ensures tiles == old(tiles) + [t]
      ensures Assembled() && ShowsTiles() && (hit' || ShowsPointer())
      ensures hit' ==> hit || cursorVisible
    {
      hit' := hit;
      forall x, y ensures LastTile(tiles + [t], x, y) ==
                          if Covers(t, x, y) then Some(t.px(x, y)) else LastTile(tiles, x, y) {
        OneMore(tiles, t, x, y);
      }
      tiles := tiles + [t];
      if t.NoTile? {
        return;
      }
      var r := Clip(t.r, Screen());
      ClipIsIntersection(t.r, Screen());
      if Empty(r) {
        assert forall x, y :: Has(Screen(), x, y) ==> !Covers(t, x, y);
        return;
      }
      Draw(canvas, t, r);
      BlitRect(fb, canvas, r);
      var c := CursorRect();
      CursorRectHolds();
      if cursorVisible && !Empty(c) && r.x0 < c.x1 && c.x0 < r.x1 && r.y0 < c.y1 && c.y0 < r.y1 {
        hit' := true;
      }
    }

    method WriteUpdate(update: seq<Tile>)
      requires Valid()
      modifies this, canvas, fb
      ensures Valid() && tiles == old(tiles) + update
      ensures (cursorX, cursorY, cursorVisible) == old((cursorX, cursorY, cursorVisible))
      ensures canvas == old(canvas) || fresh(canvas)
    {
      if canvas == null {
        canvas := new Color[fb.Length0, fb.Length1]((y, x) => BLANK);
      }
      var hit := false;
      for i := 0 to |update|
        invariant canvas != null && (canvas == old(canvas) || fresh(canvas))
        invariant tiles == old(tiles) + update[..i]
        invariant (cursorX, cursorY, cursorVisible) == old((cursorX, cursorY, cursorVisible))
        invariant Assembled() && ShowsTiles() && (hit || ShowsPointer()) && (hit ==> cursorVisible)
      {
        hit := WriteTile(update[i], hit);
      }
      assert update[..|update|] == update;
      if hit {
        PaintCursor();
      }
    }

    method MoveCursor(x: int, y: int)
      requires Valid()
      modifies this`cursorX, this`cursorY, this`cursorVisible, fb
      ensures Valid()
      ensures cursorVisible && cursorX == x && cursorY == y
    {
      if cursorVisible && cursorX == x && cursorY == y {
        return;
      }
      Restore();
      cursorX, cursorY := x, y;
      cursorVisible := true;
      PaintCursor();
    }

    /** What is under the pointer, put back. */
    method Restore()
      requires Valid()
      modifies fb
      ensures forall y, x :: 0 <= y < fb.Length0 && 0 <= x < fb.Length1 ==>
                LastTile(tiles, x, y).Some? ==> fb[y, x] == LastTile(tiles, x, y).value
    {
      CursorRectHolds();
      if cursorVisible && canvas != null {
        BlitRect(fb, canvas, CursorRect());
      }
    }

    method HideCursor()
      requires Valid()
      modifies this`cursorVisible, fb
      ensures Valid() && !cursorVisible
    {
      Restore();
      cursorVisible := false;
    }
  }
}
