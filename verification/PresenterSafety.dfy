/** What presenting keeps over every interleaving of its steps, and what that
    means for the panels. */
module PresenterSafety {
  import opened Rects
  import opened Regions
  import opened Desktop
  import opened Presenter

  // ── The first state ────────────────────────────────────────────────────────

  lemma FullDamage(o: Place)
    requires 0 < o.w && 0 < o.h
    ensures var g := AddTo([], Whole(o));
            && Apart(g) && Within(g, Whole(o))
            && forall x, y :: On(o, x, y) ==> Covers(g, x, y)
  {
    var g := AddTo([], Whole(o));
    assert Apart([]);
    AddKeeps([], Whole(o), Whole(o));
    forall x, y | On(o, x, y) ensures Covers(g, x, y) {
      AddCovers([], Whole(o), x, y);
    }
  }

  lemma StartKeeps(s: State)
    requires Start(s)
    ensures Inv(s)
  {
    forall k | 0 <= k < |s.out| ensures Kept(s.out[k], k, Now(s), s.lock, s.unsaid) {
      var o := s.out[k];
      FullDamage(o.at);
      assert o.buf[0] == DamagedAll(o).buf[0] && o.buf[1] == DamagedAll(o).buf[1];
    }
  }

  // ── FreeRDP's steps ────────────────────────────────────────────────────────

  lemma LockKeeps(s: State)
    requires Inv(s) && s.lock.Free?
    ensures Inv(s.(lock := Painter))
  {
    var z := s.(lock := Painter);
    forall k | 0 <= k < |z.out| ensures Kept(z.out[k], k, Now(z), z.lock, z.unsaid) {
      assert Kept(s.out[k], k, Now(s), s.lock, s.unsaid);
    }
  }

  lemma UnlockKeeps(s: State)
    requires Inv(s) && s.lock.Painter? && s.unsaid == iset{}
    ensures Inv(s.(lock := Free))
  {
    var z := s.(lock := Free);
    forall k | 0 <= k < |z.out| ensures Kept(z.out[k], k, Now(z), z.lock, z.unsaid) {
      assert Kept(s.out[k], k, Now(s), s.lock, s.unsaid);
    }
  }

  lemma PaintKeeps(s: State, t: Step)
    requires Inv(s) && t.Paint? && Enabled(s, t)
    ensures Inv(Apply(s, t))
  {
    var z := Apply(s, t);
    forall k | 0 <= k < |z.out| ensures Kept(z.out[k], k, Now(z), z.lock, z.unsaid) {
      var o := s.out[k];
      assert Kept(o, k, Now(s), s.lock, s.unsaid);
      forall x, y | On(o.at, x, y)
        ensures Unsaid(z.src, z.unsaid, o.at, x, y)
                || (Desk(o.at, z.src, x, y) == Desk(o.at, s.src, x, y) && !Unsaid(s.src, s.unsaid, o.at, x, y))
      {}
      forall j, x, y | 0 <= j < 2 && On(o.at, x, y) ensures Coherent(o, j, z.src, z.unsaid, x, y) {
        assert Coherent(o, j, s.src, s.unsaid, x, y);
      }
      forall j | 0 <= j < 2 && Fresh(o, j, Now(s), s.unsaid) ensures Fresh(o, j, Now(z), z.unsaid) {
        forall x, y | On(o.at, x, y) ensures Same(o, j, Now(z), z.unsaid, x, y) {
          assert Same(o, j, Now(s), s.unsaid, x, y);
        }
      }
    }
  }

  function Regrown(o: Output, g: seq<Rect>, h: seq<Rect>): Output
    requires |o.buf| == 2
  {
    o.(buf := [o.buf[0].(damage := g), o.buf[1].(damage := h)], dirty := true)
  }

  /** More damage, and a frame asked for, is all a display needs to follow a
      change of the source. */
  lemma RegrownKeeps(o: Output, g: seq<Rect>, h: seq<Rect>, k: nat, v: View, v': View,
                     u: iset<(int, int)>, u': iset<(int, int)>)
    requires Kept(o, k, v, Painter, u)
    requires Apart(g) && Within(g, Whole(o.at)) && Apart(h) && Within(h, Whole(o.at))
    requires forall j, x, y :: 0 <= j < 2 && On(o.at, x, y) ==> Coherent(Regrown(o, g, h), j, v'.src, u', x, y)
    ensures Kept(Regrown(o, g, h), k, v', Painter, u')
  {
    var z := Regrown(o, g, h);
  }

  /** What kms_damage says of the source is what it damages of a display. */
  lemma DamageRectIsTheChange(o: Place, s: Source, u: iset<(int, int)>,
                              x: int, y: int, w: int, h: int, a: int, b: int)
    requires On(o, a, b) && Unsaid(s, u, o, a, b)
    ensures Unsaid(s, Remaining(u, x, y, w, h), o, a, b) || Has(DamageRect(o, s, x, y, w, h), a, b)
  {
    var r := Rect(s.ox + x, s.oy + y, s.ox + x + w, s.oy + y + h);
    ClipIsIntersection(Move(r, -o.x, -o.y), Whole(o));
  }

  /** A pixel of any display whose source point a call of kms_damage declares is
      in the damage of both its buffers after it, and a frame is asked for; no
      display's picture is touched. */
  lemma DamageIsNoted(o: Output, s: Source, x: int, y: int, w: int, h: int, a: int, b: int)
    requires |o.buf| == 2 && On(o.at, a, b)
    requires Has(Rect(x, y, x + w, y + h), a + o.at.x - s.ox, b + o.at.y - s.oy)
    ensures var z := Damaged(o, DamageRect(o.at, s, x, y, w, h));
            z.dirty && |z.buf| == 2
            && forall j :: 0 <= j < 2 ==> Covers(z.buf[j].damage, a, b) && z.buf[j].px == o.buf[j].px
  {
    var r := Move(Rect(s.ox + x, s.oy + y, s.ox + x + w, s.oy + y + h), -o.at.x, -o.at.y);
    ClipIsIntersection(r, Whole(o.at));
    assert Has(r, a, b);
    var d := DamageRect(o.at, s, x, y, w, h);
    assert Has(d, a, b);
    AddCovers(o.buf[0].damage, d, a, b);
    AddCovers(o.buf[1].damage, d, a, b);
  }

  /** A display is left alone unless a call declares a pixel of it. */
  lemma DamageElsewhere(o: Output, s: Source, x: int, y: int, w: int, h: int)
    requires |o.buf| == 2
    ensures
      || Damaged(o, DamageRect(o.at, s, x, y, w, h)) == o
      || exists a, b :: On(o.at, a, b) && Has(Rect(x, y, x + w, y + h), a + o.at.x - s.ox, b + o.at.y - s.oy)
  {
    var r := Move(Rect(s.ox + x, s.oy + y, s.ox + x + w, s.oy + y + h), -o.at.x, -o.at.y);
    var d := DamageRect(o.at, s, x, y, w, h);
    ClipIsIntersection(r, Whole(o.at));
    if !Empty(d) {
      assert Has(d, d.x0, d.y0);
      assert On(o.at, d.x0, d.y0) && Has(Rect(x, y, x + w, y + h), d.x0 + o.at.x - s.ox, d.y0 + o.at.y - s.oy);
    }
  }

  /** A new source damages every pixel of both buffers. */
  lemma SwitchIsNoted(o: Output, a: int, b: int)
    requires |o.buf| == 2 && On(o.at, a, b)
    ensures DamagedAll(o).dirty && forall j :: 0 <= j < 2 ==> Covers(DamagedAll(o).buf[j].damage, a, b)
  {
    AddCovers([], Whole(o.at), a, b);
  }

  lemma RegrownCoherent(o: Output, d: Rect, j: nat, v: View, u: iset<(int, int)>, u': iset<(int, int)>, a: int, b: int)
    requires |o.buf| == 2 && j < 2 && Coherent(o, j, v.src, u, a, b)
    requires Unsaid(v.src, u, o.at, a, b) ==> Unsaid(v.src, u', o.at, a, b) || Has(d, a, b)
    ensures Coherent(Regrown(o, AddTo(o.buf[0].damage, d), AddTo(o.buf[1].damage, d)), j, v.src, u', a, b)
  {
    var z := Regrown(o, AddTo(o.buf[0].damage, d), AddTo(o.buf[1].damage, d));
    assert z.buf[j] == o.buf[j].(damage := AddTo(o.buf[j].damage, d)) && z.at == o.at;
    if Covers(o.buf[j].damage, a, b) || Has(d, a, b) {
      AddCovers(o.buf[j].damage, d, a, b);
    }
  }

  lemma DamagedBy(o: Output, d: Rect, k: nat, v: View, u: iset<(int, int)>, u': iset<(int, int)>)
    requires Kept(o, k, v, Painter, u) && !Empty(d) && Inside(d, Whole(o.at))
    requires forall a, b :: On(o.at, a, b) && Unsaid(v.src, u, o.at, a, b) ==> Unsaid(v.src, u', o.at, a, b) || Has(d, a, b)
    ensures Kept(Damaged(o, d), k, v, Painter, u')
  {
    var g, g' := AddTo(o.buf[0].damage, d), AddTo(o.buf[1].damage, d);
    AddKeeps(o.buf[0].damage, d, Whole(o.at));
    AddKeeps(o.buf[1].damage, d, Whole(o.at));
    forall j, a, b | 0 <= j < 2 && On(o.at, a, b) ensures Coherent(Regrown(o, g, g'), j, v.src, u', a, b) {
      assert Coherent(o, j, v.src, u, a, b);
      RegrownCoherent(o, d, j, v, u, u', a, b);
    }
    RegrownKeeps(o, g, g', k, v, v, u, u');
  }

  lemma DamagedKeeps(o: Output, k: nat, v: View, u: iset<(int, int)>, x: int, y: int, w: int, h: int)
    requires Kept(o, k, v, Painter, u)
    ensures Kept(Damaged(o, DamageRect(o.at, v.src, x, y, w, h)), k, v, Painter, Remaining(u, x, y, w, h))
  {
    var d := DamageRect(o.at, v.src, x, y, w, h);
    var u' := Remaining(u, x, y, w, h);
    forall a, b | On(o.at, a, b) && Unsaid(v.src, u, o.at, a, b)
      ensures Unsaid(v.src, u', o.at, a, b) || Has(d, a, b)
    {
      DamageRectIsTheChange(o.at, v.src, u, x, y, w, h, a, b);
    }
    if Empty(d) {
      UndamagedKeeps(o, k, v, u, u');
    } else {
      ClipIsIntersection(Move(Rect(v.src.ox + x, v.src.oy + y, v.src.ox + x + w, v.src.oy + y + h),
                              -o.at.x, -o.at.y), Whole(o.at));
      DamagedBy(o, d, k, v, u, u');
    }
  }

  /** A display none of whose pixels are among those declared. */
  lemma UndamagedKeeps(o: Output, k: nat, v: View, u: iset<(int, int)>, u': iset<(int, int)>)
    requires Kept(o, k, v, Painter, u)
    requires forall x, y :: On(o.at, x, y) && Unsaid(v.src, u, o.at, x, y) ==> Unsaid(v.src, u', o.at, x, y)
    ensures Kept(o, k, v, Painter, u')
  {
    forall j, x, y | 0 <= j < 2 && On(o.at, x, y) ensures Coherent(o, j, v.src, u', x, y) {
      assert Coherent(o, j, v.src, u, x, y);
    }
    forall j | 0 <= j < 2 && Fresh(o, j, v, u) ensures Fresh(o, j, v, u') {
      forall x, y | On(o.at, x, y) ensures Same(o, j, v, u', x, y) {
        assert Same(o, j, v, u, x, y);
      }
    }
  }

  lemma DamageLeaves(s: State, t: Step)
    requires Inv(s) && t.Damage? && Enabled(s, t)
    ensures var z := Apply(s, t);
            && |z.out| == |s.out|
            && forall k :: 0 <= k < |z.out| ==>
                 && z.out[k] == Damaged(s.out[k], DamageRect(s.out[k].at, s.src, t.x, t.y, t.w, t.h))
                 && z.out[k].at == s.out[k].at && z.out[k].onHw == s.out[k].onHw
  {
    assert forall k :: 0 <= k < |s.out| ==> |s.out[k].buf| == 2;
  }

  lemma DamageKeeps(s: State, t: Step)
    requires Inv(s) && t.Damage? && Enabled(s, t)
    ensures Inv(Apply(s, t))
  {
    var z := Apply(s, t);
    DamageLeaves(s, t);
    SameOutputsAt(s.out, z.out, s.ptr.px, s.ptr.py, 0);
    assert Now(z) == Now(s);
    forall k | 0 <= k < |z.out| ensures Kept(z.out[k], k, Now(z), z.lock, z.unsaid) {
      DamagedKeeps(s.out[k], k, Now(s), s.unsaid, t.x, t.y, t.w, t.h);
    }
  }

  /** output_at looks at the displays' places only. */
  lemma {:induction false} SameOutputsAt(a: seq<Output>, b: seq<Output>, x: int, y: int, i: nat)
    requires |a| == |b| && i <= |a|
    requires forall k :: 0 <= k < |a| ==> a[k].at == b[k].at
    ensures OutputFrom(a, x, y, i) == OutputFrom(b, x, y, i)
    decreases |a| - i
  {
    if i < |a| {
      SameOutputsAt(a, b, x, y, i + 1);
    }
  }

  lemma SwitchKeeps(s: State, t: Step)
    requires Inv(s) && t.Switch? && Enabled(s, t)
    ensures Inv(Apply(s, t))
  {
    var z := Apply(s, t);
    SameOutputsAt(s.out, z.out, s.ptr.px, s.ptr.py, 0);
    forall k | 0 <= k < |z.out| ensures Kept(z.out[k], k, Now(z), z.lock, z.unsaid) {
      var o := s.out[k];
      var g := AddTo([], Whole(o.at));
      FullDamage(o.at);
      RegrownKeeps(o, g, g, k, Now(s), Now(z), s.unsaid, z.unsaid);
    }
  }

  // ── The pointer ────────────────────────────────────────────────────────────

  /** All the pointer's moves can change of a display is its cursor plane and
      whether a frame is asked for. */
  ghost predicate Alike(a: Output, b: Output) {
    b == a.(hw := b.hw, onHw := b.onHw, plane := b.plane, dirty := b.dirty) && (a.dirty ==> b.dirty) && (b.onHw ==> b.hw)
    && (b.hw ==> a.hw)
  }

  lemma AlikeKeeps(a: Output, b: Output, k: nat, v: View, v': View, lock: Holder, u: iset<(int, int)>)
    requires Kept(a, k, v, lock, u) && Alike(a, b) && v'.src == v.src
    requires b.dirty || forall x, y :: On(a.at, x, y) ==> Frame(a.at, v, x, y) == Frame(a.at, v', x, y)
    ensures Kept(b, k, v', lock, u)
  {
    forall j, x, y | 0 <= j < 2 && On(b.at, x, y) && !(b.phase.Filling? && j == b.drawing)
      ensures Coherent(b, j, v'.src, u, x, y)
    {
      assert Coherent(a, j, v.src, u, x, y);
    }
    forall x, y | On(b.at, x, y) && b.phase.Filling? ensures Progress(b, v'.src, x, y) {
      assert Progress(a, v.src, x, y);
    }
    forall j | 0 <= j < 2 && !b.dirty && Fresh(a, j, v, u) ensures Fresh(b, j, v', u) {
      forall x, y | On(b.at, x, y) ensures Same(b, j, v', u, x, y) {
        assert Same(a, j, v, u, x, y);
      }
    }
  }

  /** A frame shows no pointer where the software pointer does not reach. */
  lemma NoPointerNoChange(o: Place, v: View, v': View)
    requires v.src == v'.src
    requires Empty(PointerRect(o, v.ptr, v.soft)) && Empty(PointerRect(o, v'.ptr, v'.soft))
    ensures forall x, y :: Frame(o, v, x, y) == Frame(o, v', x, y)
  {}

  lemma PlaceOnLeaves(o: Output, p: Pointer, image: bool, a: Answers, i: nat)
    ensures PlaceOn(o, p, image, a, i).at == o.at && PlaceOn(o, p, image, a, i).dirty == o.dirty
    ensures (o.onHw ==> o.hw) ==> Alike(o, PlaceOn(o, p, image, a, i)) && Alike(o, HideHw(o, i in a.hides))
  {}

  /** place_pointer leaves the pointer on the cursor plane of no display but the
      one its hot spot is on. */
  lemma PlaceKeeps(out: seq<Output>, p: Pointer, image: bool, a: Answers)
    requires 0 <= p.pout < |out|
    ensures var (r, q) := PlacePointer(out, p, image, a);
            && OutputAt(r, q.px, q.py) in {-1, q.pout}
            && (forall k :: 0 <= k < |r| && r[k].onHw ==> k == q.pout)
            && (forall k :: 0 <= k < |r| ==> r[k].at == out[k].at)
            && (forall k :: 0 <= k < |r| && (out[k].onHw ==> out[k].hw) ==>
                  Alike(out[k], r[k]) && r[k].dirty == out[k].dirty)
  {
    var (r, q) := PlacePointer(out, p, image, a);
    forall k | 0 <= k < |r|
      ensures r[k].at == out[k].at
      ensures (out[k].onHw ==> out[k].hw) ==> Alike(out[k], r[k]) && r[k].dirty == out[k].dirty
    {
      PlaceOnLeaves(out[k], p, image, a, k);
    }
    SameOutputsAt(out, r, p.px, p.py, 0);
  }

  /** sw_changed asks for a frame wherever the software pointer was or is. */
  lemma SwChangedLeaves(before: seq<Output>, p: Pointer, out: seq<Output>, q: Pointer)
    requires |before| == |out| && 0 <= q.pout < |out|
    ensures Soft(SwChanged(before, p, out, q), q) == Soft(out, q)
    ensures forall k :: 0 <= k < |out| ==>
              var z := SwChanged(before, p, out, q)[k];
              && z == out[k].(dirty := z.dirty) && (out[k].dirty ==> z.dirty)
              && (!z.dirty ==> Empty(PointerRect(before[k].at, p, Soft(before, p)))
                               && Empty(PointerRect(out[k].at, q, Soft(out, q))))
  {}

  lemma PointerStepKeeps(s: State, out: seq<Output>, q: Pointer)
    requires Inv(s) && |out| == |s.out| && 0 <= q.pout < |out|
    requires OutputAt(out, q.px, q.py) in {-1, q.pout}
    requires forall k :: 0 <= k < |out| && out[k].onHw ==> k == q.pout
    requires forall k :: 0 <= k < |out| ==> Alike(s.out[k], out[k]) && out[k].dirty == s.out[k].dirty
    ensures Inv(s.(out := SwChanged(s.out, s.ptr, out, q), ptr := q))
  {
    var z := s.(out := SwChanged(s.out, s.ptr, out, q), ptr := q);
    SwChangedLeaves(s.out, s.ptr, out, q);
    SameOutputsAt(out, z.out, q.px, q.py, 0);
    forall k | 0 <= k < |z.out| ensures Kept(z.out[k], k, Now(z), z.lock, z.unsaid) {
      assert Alike(s.out[k], z.out[k]);
      PointerOnOne(s.out[k], z.out[k], k, Now(s), Now(z), s.lock, s.unsaid);
    }
  }

  lemma PointerOnOne(a: Output, b: Output, k: nat, v: View, v': View, lock: Holder, u: iset<(int, int)>)
    requires Kept(a, k, v, lock, u) && Alike(a, b) && v'.src == v.src
    requires b.dirty || (Empty(PointerRect(a.at, v.ptr, v.soft)) && Empty(PointerRect(a.at, v'.ptr, v'.soft)))
    ensures Kept(b, k, v', lock, u)
  {
    if !b.dirty {
      NoPointerNoChange(a.at, v, v');
    }
    AlikeKeeps(a, b, k, v, v', lock, u);
  }

  /** Whether the pointer is loaded, hidden or moved: a frame is asked for of every
      display on which the picture with the pointer changes anywhere. */
  lemma CursorAsks(s: State, t: Step, k: nat, x: int, y: int)
    requires Inv(s) && (t.CursorSet? || t.CursorHide? || t.CursorMove?) && Enabled(s, t) && k < |s.out|
    ensures |Apply(s, t).out| == |s.out| && Alike(s.out[k], Apply(s, t).out[k])
    ensures var z := Apply(s, t);
            Frame(z.out[k].at, Now(z), x, y) == Frame(s.out[k].at, Now(s), x, y) || z.out[k].dirty
  {
    var p := if t.CursorSet? then s.ptr.(img := t.img, loaded := true, iw := t.w, ih := t.h, hx := t.hx, hy := t.hy, visible := true)
             else if t.CursorMove? then s.ptr.(px := t.x, py := t.y) else s.ptr.(visible := false);
    if t.CursorHide? {
      var out := HideAll(s.out, t.a);
      ChangeAsks(s, out, p, k, x, y);
    } else {
      PlaceKeeps(s.out, p, t.CursorSet?, t.a);
      var (out, q) := PlacePointer(s.out, p, t.CursorSet?, t.a);
      ChangeAsks(s, out, q, k, x, y);
    }
  }

  lemma PointerAsks(s: State, out: seq<Output>, q: Pointer, k: nat)
    requires |out| == |s.out| && k < |out| && out[k].at == s.out[k].at && out[k].dirty == s.out[k].dirty
    ensures SwChanged(s.out, s.ptr, out, q)[k].dirty <==>
              || s.out[k].dirty || !Empty(PointerRect(s.out[k].at, s.ptr, Soft(s.out, s.ptr)))
              || !Empty(PointerRect(out[k].at, q, Soft(out, q)))
  {}

  /** And of no other: only of one the pointer was drawn on before, or is to be now. */
  lemma CursorAsksOnly(s: State, t: Step, k: nat)
    requires Inv(s) && Enabled(s, t) && (t.CursorSet? || t.CursorHide? || t.CursorMove?) && k < |s.out|
    ensures var z := Apply(s, t);
            && |z.out| == |s.out|
            && (z.out[k].dirty <==>
                  || s.out[k].dirty || !Empty(PointerRect(s.out[k].at, s.ptr, Now(s).soft))
                  || !Empty(PointerRect(s.out[k].at, z.ptr, Now(z).soft)))
  {
    match t
    case CursorSet(img, w, h, hx, hy, a) =>
      var p := s.ptr.(img := img, loaded := true, iw := w, ih := h, hx := hx, hy := hy, visible := true);
      var (out, q) := PlacePointer(s.out, p, true, a);
      PlaceKeeps(s.out, p, true, a);
      PointerAsks(s, out, q, k);
      SwChangedLeaves(s.out, s.ptr, out, q);
    case CursorHide(a) =>
      PointerAsks(s, HideAll(s.out, a), s.ptr.(visible := false), k);
    case CursorMove(x, y, a) =>
      var p := s.ptr.(px := x, py := y);
      var (out, q) := PlacePointer(s.out, p, false, a);
      PlaceKeeps(s.out, p, false, a);
      PointerAsks(s, out, q, k);
      SwChangedLeaves(s.out, s.ptr, out, q);
  }

  lemma ChangeAsks(s: State, out: seq<Output>, q: Pointer, k: nat, x: int, y: int)
    requires |out| == |s.out| && k < |out| && 0 <= q.pout < |out| && Alike(s.out[k], out[k])
    ensures Alike(s.out[k], SwChanged(s.out, s.ptr, out, q)[k])
    ensures var z := s.(out := SwChanged(s.out, s.ptr, out, q), ptr := q);
            Frame(z.out[k].at, Now(z), x, y) == Frame(s.out[k].at, Now(s), x, y) || z.out[k].dirty
  {
    var z := s.(out := SwChanged(s.out, s.ptr, out, q), ptr := q);
    SwChangedLeaves(s.out, s.ptr, out, q);
    if !z.out[k].dirty {
      NoPointerNoChange(s.out[k].at, Now(s), Now(z));
    }
  }

  lemma PlacedKeeps(s: State, p: Pointer, image: bool, a: Answers)
    requires Inv(s) && p.pout == s.ptr.pout
    ensures var (out, q) := PlacePointer(s.out, p, image, a);
            Inv(s.(out := SwChanged(s.out, s.ptr, out, q), ptr := q))
  {
    PlaceKeeps(s.out, p, image, a);
    var (out, q) := PlacePointer(s.out, p, image, a);
    forall k | 0 <= k < |out| ensures Alike(s.out[k], out[k]) && out[k].dirty == s.out[k].dirty {
      assert Kept(s.out[k], k, Now(s), s.lock, s.unsaid);
    }
    PointerStepKeeps(s, out, q);
  }

  lemma HiddenKeeps(s: State, a: Answers)
    requires Inv(s)
    ensures var q := s.ptr.(visible := false);
            Inv(s.(out := SwChanged(s.out, s.ptr, HideAll(s.out, a), q), ptr := q))
  {
    var out := HideAll(s.out, a);
    SameOutputsAt(s.out, out, s.ptr.px, s.ptr.py, 0);
    forall k | 0 <= k < |out| ensures Alike(s.out[k], out[k]) && out[k].dirty == s.out[k].dirty {
      assert Kept(s.out[k], k, Now(s), s.lock, s.unsaid);
    }
    PointerStepKeeps(s, out, s.ptr.(visible := false));
  }

  lemma CursorKeeps(s: State, t: Step)
    requires Inv(s) && (t.CursorSet? || t.CursorHide? || t.CursorMove?) && Enabled(s, t)
    ensures Inv(Apply(s, t))
  {
    match t
    case CursorSet(img, w, h, hx, hy, a) =>
      PlacedKeeps(s, s.ptr.(img := img, loaded := true, iw := w, ih := h, hx := hx, hy := hy, visible := true), true, a);
    case CursorHide(a) => HiddenKeeps(s, a);
    case CursorMove(x, y, a) => PlacedKeeps(s, s.ptr.(px := x, py := y), false, a);
  }

  // ── A display's thread ─────────────────────────────────────────────────────

  /** A step that changes display k alone, and the source's holder with it. */
  lemma OneOutput(s: State, k: nat, o: Output, lock: Holder)
    requires Inv(s) && k < |s.out|
    requires o.at == s.out[k].at && o.onHw == s.out[k].onHw
    requires Kept(o, k, Now(s), lock, s.unsaid)
    requires lock == s.lock || (s.lock.Free? && lock == Thread(k)) || (s.lock == Thread(k) && lock.Free?)
    ensures Inv(s.(out := s.out[k := o], lock := lock))
  {
    var z := s.(out := s.out[k := o], lock := lock);
    SameOutputsAt(s.out, z.out, s.ptr.px, s.ptr.py, 0);
    assert Now(z) == Now(s);
    forall i | 0 <= i < |z.out| ensures Kept(z.out[i], i, Now(z), z.lock, z.unsaid) {
      if i != k {
        assert Kept(s.out[i], i, Now(s), s.lock, s.unsaid);
      }
    }
  }

  lemma WakeKeeps(s: State, k: nat)
    requires Inv(s) && Enabled(s, Wake(k))
    ensures Inv(Apply(s, Wake(k)))
  {
    var o := s.out[k];
    var z := o.(phase := Woken, dirty := false);
    assert Kept(o, k, Now(s), s.lock, s.unsaid);
    forall j, x, y | 0 <= j < 2 && On(z.at, x, y) ensures Coherent(z, j, s.src, s.unsaid, x, y) {
      assert Coherent(o, j, s.src, s.unsaid, x, y);
    }
    OneOutput(s, k, z, s.lock);
  }

  /** Every pixel a thread takes the damage of, and every one of the pointer it
      drew in that buffer before, it is to fill. */
  lemma TakeLosesNothing(o: Output, x: int, y: int)
    requires |o.buf| == 2 && o.front < 2
    requires var b := o.buf[Target(o)]; Covers(b.damage, x, y) || Has(b.pointer, x, y)
    ensures Covers(Taken(o).phase.todo, x, y)
  {
    var b := o.buf[Target(o)];
    AddCovers(b.damage, b.pointer, x, y);
  }

  lemma TakeKeeps(s: State, k: nat)
    requires Inv(s) && Enabled(s, Take(k))
    ensures Inv(Apply(s, Take(k)))
  {
    var o := s.out[k];
    assert Kept(o, k, Now(s), s.lock, s.unsaid);
    var z := Taken(o);
    var i := Target(o);
    var b := o.buf[i];
    AddKeeps(b.damage, b.pointer, Whole(o.at));
    var todo := z.phase.todo;
    assert todo[0..] == todo;
    forall x, y | On(z.at, x, y) ensures Progress(z, s.src, x, y) {
      assert Coherent(o, i, s.src, s.unsaid, x, y);
      if Covers(b.damage, x, y) || Has(b.pointer, x, y) {
        AddCovers(b.damage, b.pointer, x, y);
      }
    }
    forall j, x, y | 0 <= j < 2 && On(z.at, x, y) && j != i ensures Coherent(z, j, s.src, s.unsaid, x, y) {
      assert Coherent(o, j, s.src, s.unsaid, x, y);
    }
    OneOutput(s, k, z, Thread(k));
  }

  lemma FillKeeps(s: State, k: nat)
    requires Inv(s) && Enabled(s, Fill(k))
    ensures Inv(Apply(s, Fill(k)))
  {
    var o := s.out[k];
    assert Kept(o, k, Now(s), s.lock, s.unsaid);
    var z := Filled(o, s.src);
    var (todo, d) := (o.phase.todo, o.phase.done);
    forall x, y | On(z.at, x, y) ensures Progress(z, s.src, x, y) {
      assert Progress(o, s.src, x, y);
      if Covers(todo[d..], x, y) && !Has(todo[d], x, y) {
        var m :| 0 <= m < |todo[d..]| && Has(todo[d..][m], x, y);
        assert todo[d + 1..][m - 1] == todo[d..][m];
      }
    }
    forall j, x, y | 0 <= j < 2 && On(z.at, x, y) && j != z.drawing
      ensures Coherent(z, j, s.src, s.unsaid, x, y)
    {
      assert Coherent(o, j, s.src, s.unsaid, x, y);
    }
    OneOutput(s, k, z, s.lock);
  }

  /** The frame a thread has drawn when it lets go of the source is the whole
      desktop of that one instant, pointer and all: no pixel is left over from
      an earlier one. */
  lemma DrawnFrameIsExact(s: State, k: nat, x: int, y: int)
    requires Inv(s) && Enabled(s, Draw(k))
    requires On(s.out[k].at, x, y)
    ensures var o := Apply(s, Draw(k)).out[k];
            && o.buf[o.drawing].view == Now(s) && o.buf[o.drawing].px(x, y) == Frame(o.at, Now(s), x, y)
            && o.buf[o.drawing].damage == []
  {
    var o := s.out[k];
    assert Kept(o, k, Now(s), s.lock, s.unsaid);
    assert Progress(o, s.src, x, y);
    assert o.phase.todo[o.phase.done..] == [];
  }

  lemma DrawKeeps(s: State, k: nat)
    requires Inv(s) && Enabled(s, Draw(k))
    ensures Inv(Apply(s, Draw(k)))
  {
    var o := s.out[k];
    assert Kept(o, k, Now(s), s.lock, s.unsaid);
    var z := Drawn(o, Now(s));
    var (todo, r) := (o.phase.todo, PointerRect(o.at, s.ptr, Now(s).soft));
    AddKeeps(todo, r, Whole(o.at));
    forall x, y | On(z.at, x, y)
      ensures Same(z, z.drawing, Now(s), s.unsaid, x, y)
              && Coherent(z, z.drawing, s.src, s.unsaid, x, y)
    {
      DrawnFrameIsExact(s, k, x, y);
    }
    forall j, x, y | 0 <= j < 2 && On(z.at, x, y) && j != z.drawing
      ensures Coherent(z, j, s.src, s.unsaid, x, y)
    {
      assert Coherent(o, j, s.src, s.unsaid, x, y);
    }
    OneOutput(s, k, z, Free);
  }

  /** All that show changes of what the threads go by. */
  lemma ShownMoves(o: Output, moded: bool, flipped: bool, pushed: bool)
    requires |o.buf| == 2 && o.drawing < 2 && o.phase.Showing? && o.drawing == Target(o)
    requires o.front < 2 && (o.glass.flight.Flight? ==> o.glass.flight.i < 2) && (o.fbdev ==> !o.flips)
    ensures var z := Shown(o, moded, flipped, pushed);
            && z.at == o.at && z.buf == o.buf && z.fbdev == o.fbdev && z.hw == o.hw && z.onHw == o.onHw
            && z.dirty == o.dirty && z.drawing == o.drawing
            && (z.glass.flight.Flight? ==> z.glass.flight.i < 2) && (z.flips ==> o.flips)
            && (if z.phase.Flipping? then z.drawing == Target(z) && !z.fbdev
                else z.phase.Waiting? && z.front == o.drawing)
  {}

  lemma ShownSound(o: Output, moded: bool, flipped: bool, pushed: bool)
    requires Sound(o) && o.phase.Showing? && (o.glass.flight.Flight? ==> o.glass.flight.i < 2)
    ensures Sound(Shown(o, moded, flipped, pushed))
  {
    ShownMoves(o, moded, flipped, pushed);
  }

  /** A display goes from one place of its loop to another, its buffers and its
      damage untouched. */
  lemma MovedOn(o: Output, z: Output, k: nat, v: View, lock: Holder, u: iset<(int, int)>)
    requires Kept(o, k, v, lock, u) && !o.phase.Filling? && !z.phase.Filling?
    requires Sound(z) && z.at == o.at && z.dirty == o.dirty && z.buf == o.buf && (z.glass.flight.Flight? ==> z.glass.flight.i < 2)
    requires z.phase.Showing? || z.phase.Flipping? ==> z.dirty || Fresh(o, z.drawing, v, u)
    requires z.phase.Waiting? ==> z.dirty || Fresh(o, z.front, v, u)
    ensures Kept(z, k, v, lock, u)
  {
    forall j, x, y | 0 <= j < 2 && On(z.at, x, y) ensures Coherent(z, j, v.src, u, x, y) {
      assert Coherent(o, j, v.src, u, x, y);
    }
    forall j | 0 <= j < 2 && Fresh(o, j, v, u) ensures Fresh(z, j, v, u) {
      forall x, y | On(z.at, x, y) ensures Same(z, j, v, u, x, y) {
        assert Same(o, j, v, u, x, y);
      }
    }
  }

  lemma ShownKeeps(o: Output, k: nat, v: View, lock: Holder, u: iset<(int, int)>,
                   moded: bool, flipped: bool, pushed: bool)
    requires Kept(o, k, v, lock, u) && o.phase.Showing?
    ensures Kept(Shown(o, moded, flipped, pushed), k, v, lock, u)
  {
    ShownMoves(o, moded, flipped, pushed);
    ShownSound(o, moded, flipped, pushed);
    MovedOn(o, Shown(o, moded, flipped, pushed), k, v, lock, u);
  }

  lemma PlanesKeep(s: State, out: seq<Output>)
    requires Inv(s) && |out| == |s.out|
    requires forall k :: 0 <= k < |out| ==> Alike(s.out[k], out[k])
    requires forall k :: 0 <= k < |out| && out[k].onHw ==> k == s.ptr.pout
    requires
      || out[s.ptr.pout].onHw == s.out[s.ptr.pout].onHw
      || forall k :: 0 <= k < |out| ==> out[k].dirty
    ensures Inv(s.(out := out))
  {
    var z := s.(out := out);
    SameOutputsAt(s.out, out, s.ptr.px, s.ptr.py, 0);
    forall i | 0 <= i < |z.out| ensures Kept(z.out[i], i, Now(z), z.lock, z.unsaid) {
      AlikeKeeps(s.out[i], z.out[i], i, Now(s), Now(z), s.lock, s.unsaid);
    }
  }

  /** The pointer going over to the cursor plane once there is a mode for it to
      be on: either every display is to be redrawn without it, or the plane
      refused it and nothing has changed. */
  lemma PlaneKeeps(s: State, a: Answers)
    requires Inv(s) && !s.out[s.ptr.pout].onHw
    ensures Inv(PlaneStep(s, s.ptr.pout, a))
  {
    var (placed, q) := PlacePointer(s.out, s.ptr, true, a);
    PlaceKeeps(s.out, s.ptr, true, a);
    forall k | 0 <= k < |placed| ensures Alike(s.out[k], placed[k]) {
      assert Sound(s.out[k]);
    }
    assert q == s.ptr;
    var out := if placed[s.ptr.pout].onHw then AllDirty(placed) else placed;
    assert PlaneStep(s, s.ptr.pout, a) == s.(out := out);
    PlanesKeep(s, out);
  }

  lemma PutUpKeeps(s: State, k: nat, moded: bool, flipped: bool, pushed: bool)
    requires Inv(s) && k < |s.out| && s.out[k].phase.Showing?
    ensures Inv(s.(out := s.out[k := Shown(s.out[k], moded, flipped, pushed)]))
  {
    var d := Shown(s.out[k], moded, flipped, pushed);
    ShownMoves(s.out[k], moded, flipped, pushed);
    ShownKeeps(s.out[k], k, Now(s), s.lock, s.unsaid, moded, flipped, pushed);
    OneOutput(s, k, d, s.lock);
    assert s.(out := s.out[k := d]) == s.(out := s.out[k := d], lock := s.lock);
  }

  lemma ShowKeeps(s: State, t: Step)
    requires Inv(s) && t.Show? && Enabled(s, t)
    ensures Inv(Apply(s, t))
  {
    var m := s.(out := s.out[t.k := Shown(s.out[t.k], t.moded, t.flipped, t.pushed)]);
    PutUpKeeps(s, t.k, t.moded, t.flipped, t.pushed);
    if Apply(s, t) != m {
      PlaneKeeps(m, t.a);
    }
  }

  /** A flip done by the kernel, or its event, changes nothing the threads go by
      but what wait_flip waits for. */
  lemma KernelKeeps(s: State, k: nat, z: Output)
    requires Inv(s) && k < |s.out| && (z.glass.flight.Flight? ==> z.glass.flight.i < 2)
    requires var o := s.out[k];
             z == o.(glass := z.glass, pending := z.pending)
    ensures Inv(s.(out := s.out[k := z]))
  {
    var o := s.out[k];
    assert Kept(o, k, Now(s), s.lock, s.unsaid);
    forall j, x, y | 0 <= j < 2 && On(z.at, x, y) && !(z.phase.Filling? && j == z.drawing)
      ensures Coherent(z, j, s.src, s.unsaid, x, y)
    {
      assert Coherent(o, j, s.src, s.unsaid, x, y);
    }
    forall x, y | On(z.at, x, y) && z.phase.Filling? ensures Progress(z, s.src, x, y) {
      assert Progress(o, s.src, x, y);
    }
    forall j | 0 <= j < 2 && Fresh(o, j, Now(s), s.unsaid) ensures Fresh(z, j, Now(s), s.unsaid) {
      forall x, y | On(z.at, x, y) ensures Same(z, j, Now(s), s.unsaid, x, y) {
        assert Same(o, j, Now(s), s.unsaid, x, y);
      }
    }
    OneOutput(s, k, z, s.lock);
    assert s.(out := s.out[k := z]) == s.(out := s.out[k := z], lock := s.lock);
  }

  lemma WaitedKeeps(s: State, k: nat)
    requires Inv(s) && k < |s.out| && s.out[k].phase.Flipping?
    ensures Inv(s.(out := s.out[k := Waited(s.out[k])]))
  {
    var o := s.out[k];
    assert Kept(o, k, Now(s), s.lock, s.unsaid);
    MovedOn(o, Waited(o), k, Now(s), s.lock, s.unsaid);
    OneOutput(s, k, Waited(o), s.lock);
    assert s.(out := s.out[k := Waited(o)]) == s.(out := s.out[k := Waited(o)], lock := s.lock);
  }

  /** Every step of every thread keeps the invariant. */
  lemma StepKeeps(s: State, t: Step)
    requires Inv(s) && Enabled(s, t)
    ensures Inv(Apply(s, t))
  {
    match t
    case Lock => LockKeeps(s);
    case Paint(_, _) => PaintKeeps(s, t);
    case Damage(_, _, _, _) => DamageKeeps(s, t);
    case Switch(_, _, _, _, _, _) => SwitchKeeps(s, t);
    case Unlock => UnlockKeeps(s);
    case CursorSet(_, _, _, _, _, _) => CursorKeeps(s, t);
    case CursorHide(a) => CursorKeeps(s, t);
    case CursorMove(_, _, _) => CursorKeeps(s, t);
    case Wake(k) => WakeKeeps(s, k);
    case Take(k) => TakeKeeps(s, k);
    case Fill(k) => FillKeeps(s, k);
    case Draw(k) => DrawKeeps(s, k);
    case Show(_, _, _, _, _) => ShowKeeps(s, t);
    case Flipped(k) => KernelKeeps(s, k, Apply(s, t).out[k]);
    case Event(k) => KernelKeeps(s, k, Apply(s, t).out[k]);
    case Arrived(k) => WaitedKeeps(s, k);
    case TimedOut(k) => WaitedKeeps(s, k);
  }

  // ── Runs ───────────────────────────────────────────────────────────────────

  /** states is a run from kms_start on: each state follows by the step beside
      it. */
  ghost predicate Run(states: seq<State>, steps: seq<Step>) {
    && |states| == |steps| + 1 && Start(states[0])
    && forall i {:trigger steps[i]} :: 0 <= i < |steps| ==>
         Shape(states[i]) && Enabled(states[i], steps[i]) && states[i + 1] == Apply(states[i], steps[i])
  }

  lemma OneMoreStep(states: seq<State>, steps: seq<Step>, t: Step, z: State)
    requires Run(states, steps)
    requires Shape(states[|steps|]) && Enabled(states[|steps|], t) && z == Apply(states[|steps|], t)
    ensures Run(states + [z], steps + [t])
  {
    var (ss, ts) := (states + [z], steps + [t]);
    forall i | 0 <= i < |ts| ensures Shape(ss[i]) && Enabled(ss[i], ts[i]) && ss[i + 1] == Apply(ss[i], ts[i]) {
      if i < |steps| {
        assert ts[i] == steps[i] && ss[i] == states[i] && ss[i + 1] == states[i + 1];
      }
    }
  }

  lemma {:induction false} RunKeeps(states: seq<State>, steps: seq<Step>, n: nat)
    requires Run(states, steps) && n < |states|
    ensures Inv(states[n])
  {
    if n == 0 {
      StartKeeps(states[0]);
    } else {
      RunKeeps(states, steps, n - 1);
      StepKeeps(states[n - 1], steps[n - 1]);
    }
  }

  /** Coherence: in both buffers of every display, at every point of every run,
      a pixel outside the buffer's damage and its pointer rectangle is the
      desktop's — but for what FreeRDP is painting just then, and for the
      buffer being filled, whose remaining rectangles take the place of its
      damage. */
  lemma BuffersAreCoherent(states: seq<State>, steps: seq<Step>, n: nat, k: nat, j: nat, x: int, y: int)
    requires Run(states, steps) && n < |states| && k < |states[n].out| && j < 2
    requires On(states[n].out[k].at, x, y)
    ensures var s := states[n]; var o := s.out[k];
            && |o.buf| == 2
            && if o.phase.Filling? && j == o.drawing then
                 && s.lock == Thread(k) && s.unsaid == iset{} && o.phase.done <= |o.phase.todo|
                 && (Covers(o.phase.todo[o.phase.done..], x, y)
                     || o.buf[j].px(x, y) == Desk(o.at, s.src, x, y))
               else
                 || Covers(o.buf[j].damage, x, y) || Has(o.buf[j].pointer, x, y)
                 || o.buf[j].px(x, y) == Desk(o.at, s.src, x, y)
                 || (s.lock.Painter? && Unsaid(s.src, s.unsaid, o.at, x, y))
  {
    RunKeeps(states, steps, n);
    var s := states[n];
    var o := s.out[k];
    assert Kept(o, k, Now(s), s.lock, s.unsaid);
    if o.phase.Filling? && j == o.drawing {
      assert Progress(o, s.src, x, y);
    } else {
      assert Coherent(o, j, s.src, s.unsaid, x, y);
    }
  }

  /** No lost update: a thread waits with nothing to do only when its display's
      front buffer has no damage and is, to the pixel, the present desktop with
      the present pointer, however the flips that put it there went. */
  lemma IdleHasThePresent(states: seq<State>, steps: seq<Step>, n: nat, k: nat, x: int, y: int)
    requires Run(states, steps) && n < |states| && k < |states[n].out|
    requires states[n].out[k].phase.Waiting? && !states[n].out[k].dirty
    requires states[n].unsaid == iset{} && On(states[n].out[k].at, x, y)
    ensures var s := states[n]; var o := s.out[k];
            && o.front < |o.buf| == 2
            && o.buf[o.front].damage == []
            && o.buf[o.front].px(x, y) == Frame(o.at, Now(s), x, y)
  {
    RunKeeps(states, steps, n);
    var s := states[n];
    var o := s.out[k];
    assert Kept(o, k, Now(s), s.lock, s.unsaid);
    assert Same(o, o.front, Now(s), s.unsaid, x, y);
  }
}
