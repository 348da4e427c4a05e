/** Lossy regions of at most sixteen rectangles (engine/kms.c:81-118). */
module Regions {
  import opened Rects

  const REGION_RECTS := 16
  const LONG_MAX := 0x7fff_ffff_ffff_ffff

  /** The pixels a list of rectangles covers. */
  ghost predicate Covers(g: seq<Rect>, x: int, y: int) {
    exists i :: 0 <= i < |g| && Has(g[i], x, y)
  }

  /** What region_add keeps: room for no more than sixteen rectangles, none
      empty and no two touching. */
  ghost predicate Apart(g: seq<Rect>) {
    && |g| <= REGION_RECTS
    && (forall i :: 0 <= i < |g| ==> !Empty(g[i]))
    && (forall i, j :: 0 <= i < |g| && 0 <= j < |g| && i != j ==> !Touch(g[i], g[j]))
  }

  ghost predicate Within(g: seq<Rect>, box: Rect) {
    forall i :: 0 <= i < |g| ==> Inside(g[i], box)
  }

  /** The first rectangle from i on that a touches, or |g|. */
  function FirstTouch(g: seq<Rect>, a: Rect, i: nat): (k: nat)
    requires i <= |g|
    ensures i <= k <= |g|
    ensures k < |g| ==> Touch(g[k], a)
    ensures forall j :: i <= j < k ==> !Touch(g[j], a)
    decreases |g| - i
  {
    if i == |g| || Touch(g[i], a) then i else FirstTouch(g, a, i + 1)
  }

  /** Rectangle i taken out, the last one in its place. */
  function Without(g: seq<Rect>, i: nat): (r: seq<Rect>)
    requires i < |g|
    ensures |r| == |g| - 1
    ensures forall k :: 0 <= k < |r| ==> r[k] == if k == i then g[|g| - 1] else g[k]
  {
    g[i := g[|g| - 1]][..|g| - 1]
  }

  /** a grown over every rectangle it comes to touch, which leave the list. */
  function Absorb(g: seq<Rect>, a: Rect): (r: (seq<Rect>, Rect))
    ensures |r.0| <= |g|
    decreases |g|
  {
    var i := FirstTouch(g, a, 0);
    if i == |g| then (g, a) else Absorb(Without(g, i), Rects.Union(a, g[i]))
  }

  function Waste(r: Rect, a: Rect): int {
    Area(Rects.Union(r, a)) - Area(r)
  }

  /** Which of g[..n] wastes the least when a joins it. */
  function Cheapest(g: seq<Rect>, a: Rect, n: nat): (r: (nat, int))
    requires n <= |g|
    ensures r.0 < n || r.0 == 0
    ensures n > 0 ==> r.0 < |g|
  {
    if n == 0 then (0, LONG_MAX)
    else
      var (best, cost) := Cheapest(g, a, n - 1);
      var c := Waste(g[n - 1], a);
      if c < cost then (n - 1, c) else (best, cost)
  }

  /** region_add. */
  function AddTo(g: seq<Rect>, a: Rect): seq<Rect>
    decreases |g|
  {
    if Empty(a) then g
    else
      var (h, b) := Absorb(g, a);
      if |h| == REGION_RECTS then
        var best := Cheapest(h, b, |h|).0;
        AddTo(Without(h, best), Rects.Union(b, h[best]))
      else h + [b]
  }

  // ── The properties of Absorb, then of AddTo────────────────────────────────

  lemma WithoutKeeps(g: seq<Rect>, i: nat, box: Rect)
    requires i < |g|
    ensures forall x, y :: Covers(g, x, y) ==> Covers(Without(g, i), x, y) || Has(g[i], x, y)
    ensures Apart(g) ==> Apart(Without(g, i))
    ensures Within(g, box) ==> Within(Without(g, i), box)
  {
    var r := Without(g, i);
    forall x, y | Covers(g, x, y) && !Has(g[i], x, y) ensures Covers(r, x, y) {
      var k :| 0 <= k < |g| && Has(g[k], x, y);
      assert r[if k == |g| - 1 then i else k] == g[k];
    }
  }

  lemma {:induction false} AbsorbCovers(g: seq<Rect>, a: Rect, x: int, y: int)
    requires Covers(g, x, y) || Has(a, x, y)
    ensures Covers(Absorb(g, a).0, x, y) || Has(Absorb(g, a).1, x, y)
    decreases |g|
  {
    var i := FirstTouch(g, a, 0);
    if i < |g| {
      WithoutKeeps(g, i, a);
      AbsorbCovers(Without(g, i), Rects.Union(a, g[i]), x, y);
    }
  }

  lemma {:induction false} AbsorbKeeps(g: seq<Rect>, a: Rect, box: Rect)
    requires Apart(g) && !Empty(a)
    ensures var (h, b) := Absorb(g, a);
            && Apart(h) && !Empty(b)
            && (forall i :: 0 <= i < |h| ==> !Touch(h[i], b))
            && (Within(g, box) && Inside(a, box) ==> Within(h, box) && Inside(b, box))
    decreases |g|
  {
    var i := FirstTouch(g, a, 0);
    if i < |g| {
      WithoutKeeps(g, i, box);
      AbsorbKeeps(Without(g, i), Rects.Union(a, g[i]), box);
    }
  }

  /** Nothing added is ever lost: the pixels covered only grow. */
  lemma {:induction false} AddCovers(g: seq<Rect>, a: Rect, x: int, y: int)
    requires Covers(g, x, y) || Has(a, x, y)
    ensures Covers(AddTo(g, a), x, y)
    decreases |g|
  {
    if !Empty(a) {
      var (h, b) := Absorb(g, a);
      AbsorbCovers(g, a, x, y);
      if |h| == REGION_RECTS {
        var best := Cheapest(h, b, |h|).0;
        WithoutKeeps(h, best, b);
        AddCovers(Without(h, best), Rects.Union(b, h[best]), x, y);
      } else if Covers(h, x, y) {
        var k :| 0 <= k < |h| && Has(h[k], x, y);
        assert (h + [b])[k] == h[k];
      } else {
        assert (h + [b])[|h|] == b;
      }
    }
  }

  /** At most sixteen rectangles, none empty, no two touching, and none outside
      a rectangle that bounds what was there and what is added. */
  lemma {:induction false} AddKeeps(g: seq<Rect>, a: Rect, box: Rect)
    requires Apart(g)
    ensures Apart(AddTo(g, a))
    ensures Within(g, box) && (Empty(a) || Inside(a, box)) ==> Within(AddTo(g, a), box)
    decreases |g|
  {
    if !Empty(a) {
      var (h, b) := Absorb(g, a);
      AbsorbKeeps(g, a, box);
      if |h| == REGION_RECTS {
        var best := Cheapest(h, b, |h|).0;
        WithoutKeeps(h, best, box);
        AddKeeps(Without(h, best), Rects.Union(b, h[best]), box);
      }
    }
  }

  /** Cheapest really is the least waste, the first of equals. */
  lemma {:induction false} CheapestIsLeast(g: seq<Rect>, a: Rect, n: nat)
    requires 0 < n <= |g|
    requires forall i :: 0 <= i < n ==> Waste(g[i], a) < LONG_MAX
    ensures var (best, cost) := Cheapest(g, a, n);
            && best < n && cost == Waste(g[best], a)
            && (forall i :: 0 <= i < n ==> cost <= Waste(g[i], a))
            && (forall i :: 0 <= i < best ==> cost < Waste(g[i], a))
  {
    if n > 1 {
      CheapestIsLeast(g, a, n - 1);
    }
  }

  /** Adding what touches nothing adds it, while there is room; an empty one,
      nothing; what touches a rectangle, their union in its place. */
  lemma AddIs(g: seq<Rect>, a: Rect)
    ensures Empty(a) ==> AddTo(g, a) == g
    ensures !Empty(a) && (forall i :: 0 <= i < |g| ==> !Touch(g[i], a)) && |g| != REGION_RECTS ==> AddTo(g, a) == g + [a]
    ensures var i := FirstTouch(g, a, 0);
            !Empty(a) && i < |g| && !Empty(Rects.Union(a, g[i])) ==> AddTo(g, a) == AddTo(Without(g, i), Rects.Union(a, g[i]))
  {}

  /** And when there is none, it is merged into the rectangle that wastes the least
      by it, the first of equals. */
  lemma AddWhenFull(g: seq<Rect>, a: Rect) returns (k: nat)
    requires |g| == REGION_RECTS && !Empty(a) && forall i :: 0 <= i < |g| ==> !Touch(g[i], a)
    requires forall i :: 0 <= i < |g| ==> Area(Rects.Union(g[i], a)) - Area(g[i]) < LONG_MAX
    ensures k < |g| && AddTo(g, a) == AddTo(Without(g, k), Rects.Union(a, g[k]))
    ensures forall i :: 0 <= i < |g| ==>
              var w, v := Area(Rects.Union(g[k], a)) - Area(g[k]), Area(Rects.Union(g[i], a)) - Area(g[i]);
              w <= v && (i < k ==> w < v)
  {
    assert forall i :: 0 <= i < |g| ==> Waste(g[i], a) == Area(Rects.Union(g[i], a)) - Area(g[i]);
    CheapestIsLeast(g, a, |g|);
    assert Absorb(g, a) == (g, a);
    k := Cheapest(g, a, |g|).0;
  }

  /** struct region: n of the rectangles in r are in use. */
  class Region {
    const r: array<Rect>
    var n: nat

    ghost predicate Valid()
      reads this
    {
      n <= r.Length == REGION_RECTS
    }

    ghost function Contents(): seq<Rect>
      reads this, r
      requires Valid()
    {
      r[..n]
    }

    constructor ()
      ensures Valid() && fresh(r) && Contents() == []
    {
      r := new Rect[REGION_RECTS](_ => NOWHERE);
      n := 0;
    }

    /** region_add in place: what it leaves in the array is AddTo of what was
        there. */
    method Add(a0: Rect)
      requires Valid()
      modifies this`n, r
      ensures Valid()
      ensures Contents() == AddTo(old(Contents()), a0)
      decreases n
    {
      if Empty(a0) {
        return;
      }
      var a := a0;
      while true
        invariant Valid() && n <= old(n)
        invariant Absorb(Contents(), a) == Absorb(old(Contents()), a0)
        decreases n
      {
        var i := 0;
        while i < n && !Touch(r[i], a)
          invariant 0 <= i <= n
          invariant FirstTouch(Contents(), a, 0) == FirstTouch(Contents(), a, i)
        {
          i := i + 1;
        }
        if i == n {
          break;
        }
        a := TakeOut(i, a);
      }
      if n == REGION_RECTS {
        var best, cost := 0, LONG_MAX;
        for i := 0 to n
          invariant (best, cost) == Cheapest(Contents(), a, i)
        {
          var c := Waste(r[i], a);
          if c < cost {
            best, cost := i, c;
          }
        }
        a := TakeOut(best, a);
        Add(a);
        return;
      }
      r[n] := a;
      n := n + 1;
    }

    /** g->r[i] = g->r[--g->n], with what a grows to by taking it in. */
    method TakeOut(i: nat, a: Rect) returns (b: Rect)
      requires Valid() && i < n
      modifies this`n, r
      ensures Valid() && n == old(n) - 1
      ensures Contents() == Without(old(Contents()), i)
      ensures b == Rects.Union(a, old(r[i]))
    {
      b := Rects.Union(a, r[i]);
      n := n - 1;
      r[i] := r[n];
    }
  }
}
