/** Keeping the pointer on a display (engine/kms.c:670-702). */
module Clamp {
  import opened Rects
  import opened Desktop

  const LONG_MAX := 0x7fff_ffff_ffff_ffff

  predicate Shows(o: Place, x: int, y: int) {
    o.x <= x < o.x + o.w && o.y <= y < o.y + o.h
  }

  predicate Shown(outs: seq<Place>, x: int, y: int) {
    exists i :: 0 <= i < |outs| && Shows(outs[i], x, y)
  }

  function Square(n: int): int { n * n }

  function Distance(x: int, y: int, a: int, b: int): int {
    Square(a - x) + Square(b - y)
  }

  function Nearest(v: int, lo: int, n: int): int {
    Min(Max(v, lo), lo + n - 1)
  }

  lemma SquareOfMagnitude(a: int)
    ensures Square(a) == Square(-a)
  {}

  lemma SquareGrowsNat(a: nat, b: nat)
    requires a <= b
    ensures Square(a) <= Square(b)
  {
    assert b * b - a * a == (b - a) * (b + a);
  }

  lemma SquareGrows(a: int, b: int)
    requires -Max(b, -b) <= a <= Max(b, -b)
    ensures Square(a) <= Square(b)
  {
    SquareOfMagnitude(a);
    SquareOfMagnitude(b);
    SquareGrowsNat(Max(a, -a), Max(b, -b));
  }

  /** Clamping each coordinate gives a display's nearest point. */
  lemma ClampedIsNearest(o: Place, x: int, y: int, a: int, b: int)
    requires Shows(o, a, b)
    ensures Shows(o, Nearest(x, o.x, o.w), Nearest(y, o.y, o.h))
    ensures Distance(x, y, Nearest(x, o.x, o.w), Nearest(y, o.y, o.h)) <= Distance(x, y, a, b)
  {
    SquareGrows(Nearest(x, o.x, o.w) - x, a - x);
    SquareGrows(Nearest(y, o.y, o.h) - y, b - y);
  }

  /** No display before the i-th has a point as near to (x, y) as (a, b). */
  ghost predicate FirstNear(outs: seq<Place>, i: nat, x: int, y: int, a: int, b: int)
    requires i <= |outs|
  {
    forall k, c, d :: 0 <= k < i && Shows(outs[k], c, d) ==> Distance(x, y, a, b) < Distance(x, y, c, d)
  }

  /** kms_clamp: a point some display shows stays; any other goes to a point
      that is shown and to which no shown point is nearer, on the first display
      with one. The distances fit a long, as the C arithmetic needs. */
  method KmsClamp(outs: seq<Place>, x: int, y: int) returns (moved: bool, nx: int, ny: int)
    requires |outs| > 0 && forall i :: 0 <= i < |outs| ==> outs[i].w > 0 && outs[i].h > 0
    requires forall i :: 0 <= i < |outs| ==>
               Distance(x, y, Nearest(x, outs[i].x, outs[i].w), Nearest(y, outs[i].y, outs[i].h)) < LONG_MAX
    ensures moved <==> !Shown(outs, x, y)
    ensures !moved ==> (nx, ny) == (x, y)
    ensures Shown(outs, nx, ny)
    ensures forall a, b :: Shown(outs, a, b) ==> Distance(x, y, nx, ny) <= Distance(x, y, a, b)
    ensures moved ==> exists i :: 0 <= i < |outs| && Shows(outs[i], nx, ny) && FirstNear(outs, i, x, y, nx, ny)
  {
    var at := OutputAt(outs, x, y);
    if at >= 0 {
      forall a, b ensures Distance(x, y, x, y) <= Distance(x, y, a, b) {
        SquareGrows(0, a - x);
        SquareGrows(0, b - y);
      }
      return false, x, y;
    }
    var best := LONG_MAX;
    moved, nx, ny := true, x, y;
    ghost var on := 0;
    for i := 0 to |outs|
      invariant i > 0 ==> best < LONG_MAX && Shown(outs, nx, ny) && best == Distance(x, y, nx, ny)
      invariant i == 0 ==> best == LONG_MAX
      invariant i > 0 ==> 0 <= on < i && Shows(outs[on], nx, ny) && FirstNear(outs, on, x, y, nx, ny)
      invariant forall k, a, b :: 0 <= k < i && Shows(outs[k], a, b) ==> best <= Distance(x, y, a, b)
    {
      var o := outs[i];
      var cx, cy := Nearest(x, o.x, o.w), Nearest(y, o.y, o.h);
      var d := Distance(x, y, cx, cy);
      assert Shows(o, cx, cy);
      forall a, b | Shows(o, a, b) ensures d <= Distance(x, y, a, b) {
        ClampedIsNearest(o, x, y, a, b);
      }
      if d < best {
        best, nx, ny, on := d, cx, cy, i;
      }
    }
  }

  /** output_at: the first display that shows the point, or -1. */
  method OutputAt(outs: seq<Place>, x: int, y: int) returns (r: int)
    ensures r == -1 || (0 <= r < |outs| && Shows(outs[r], x, y))
    ensures forall i :: 0 <= i < (if r < 0 then |outs| else r) ==> !Shows(outs[i], x, y)
  {
    for i := 0 to |outs|
      invariant forall k :: 0 <= k < i ==> !Shows(outs[k], x, y)
    {
      var o := outs[i];
      if x >= o.x && x < o.x + o.w && y >= o.y && y < o.y + o.h {
        return i;
      }
    }
    r := -1;
  }
}
