/** Where the pointer is seen (engine/kms.c:760-779, 829-899, 1071-1152): in the
    frames, or on the cursor plane of the display its hot spot is on; as the
    kernel has the planes, whatever it answers. */
module PointerPlane {
  import opened Rects
  import opened Regions
  import opened Desktop
  import opened Presenter
  import opened PresenterSafety

  /** The plane shows the pointer, the image clear around it, and in its place if
      the last move did not fail. */
  ghost predicate Shows(pl: Plane, p: Pointer, o: Place) {
    && pl.held
    && (forall x, y :: pl.img(x, y) == if 0 <= x < p.iw && 0 <= y < p.ih then p.img(x, y) else BLACK)
    && (!pl.astray ==> pl.x == p.px - p.hx - o.x && pl.y == p.py - p.hy - o.y)
  }

  // ── What every state keeps ─────────────────────────────────────────────────

  ghost predicate PlaneRight(o: Output, p: Pointer) {
    if o.onHw then
      && o.plane.held && !o.plane.left && o.plane.img == PlaneImage(p.img, p.iw, p.ih) && p.visible && p.loaded
      && (!o.plane.astray ==> o.plane.x == p.px - p.hx - o.at.x && o.plane.y == p.py - p.hy - o.at.y)
    else o.plane.held <==> o.plane.left
  }

  ghost predicate PlanesRight(s: State) {
    Inv(s) && forall k :: 0 <= k < |s.out| ==> PlaneRight(s.out[k], s.ptr)
  }

  lemma HiddenRight(o: Output, p: Pointer, q: Pointer, works: bool)
    requires PlaneRight(o, p)
    ensures PlaneRight(HideHw(o, works), q) && !HideHw(o, works).onHw
  {}

  /** p is the pointer before, q now; only another image is another image. */
  lemma PlacedRight(o: Output, p: Pointer, q: Pointer, image: bool, a: Answers, i: nat)
    requires PlaneRight(o, p)
    requires !image ==> q.img == p.img && q.iw == p.iw && q.ih == p.ih && q.visible == p.visible && q.loaded == p.loaded
    ensures PlaneRight(PlaceOn(o, q, image, a, i), q)
  {
    if !q.visible || !o.shown || !FitsHw(o, q) {
      HiddenRight(o, p, q, i in a.hides);
    } else if !(o.onHw && !image) && !a.taken {
      HiddenRight(o.(hw := false), p, q, i in a.hides);
    }
  }

  lemma PlaceRight(out: seq<Output>, p: Pointer, q: Pointer, image: bool, a: Answers, k: nat)
    requires 0 <= q.pout < |out| && k < |out| && PlaneRight(out[k], p)
    requires !image ==> q.img == p.img && q.iw == p.iw && q.ih == p.ih && q.visible == p.visible && q.loaded == p.loaded
    ensures var (r, z) := PlacePointer(out, q, image, a);
            PlaneRight(r[k], z) && z == q.(pout := z.pout)
  {
    PlacedRight(out[k], p, q, image, a, k);
    HiddenRight(out[k], p, q, k in a.hides);
  }

  lemma ChangedRight(before: seq<Output>, p: Pointer, out: seq<Output>, q: Pointer, k: nat)
    requires |before| == |out| && k < |out| && 0 <= q.pout < |out| && PlaneRight(out[k], q)
    ensures PlaneRight(SwChanged(before, p, out, q)[k], q)
  {}

  lemma PointerRight(s: State, t: Step, k: nat)
    requires PlanesRight(s) && Enabled(s, t) && (t.CursorSet? || t.CursorHide? || t.CursorMove?) && k < |s.out|
    ensures |Apply(s, t).out| == |s.out| && PlaneRight(Apply(s, t).out[k], Apply(s, t).ptr)
  {
    match t
    case CursorSet(img, w, h, hx, hy, a) =>
      var p := s.ptr.(img := img, loaded := true, iw := w, ih := h, hx := hx, hy := hy, visible := true);
      var (out, q) := PlacePointer(s.out, p, true, a);
      PlaceRight(s.out, s.ptr, p, true, a, k);
      ChangedRight(s.out, s.ptr, out, q, k);
    case CursorHide(a) =>
      var q := s.ptr.(visible := false);
      HiddenRight(s.out[k], s.ptr, q, k in a.hides);
      ChangedRight(s.out, s.ptr, HideAll(s.out, a), q, k);
    case CursorMove(x, y, a) =>
      var p := s.ptr.(px := x, py := y);
      var (out, q) := PlacePointer(s.out, p, false, a);
      PlaceRight(s.out, s.ptr, p, false, a, k);
      ChangedRight(s.out, s.ptr, out, q, k);
  }

  /** All that is the plane's of a display. */
  ghost predicate SamePlane(a: Output, b: Output) {
    a.onHw == b.onHw && a.plane == b.plane && a.at == b.at
  }

  lemma ShownSame(o: Output, moded: bool, flipped: bool, pushed: bool)
    requires |o.buf| == 2 && o.drawing < 2 && o.phase.Showing?
    ensures SamePlane(o, Shown(o, moded, flipped, pushed))
  {}

  /** The pointer tried on the plane of a display that has got its mode. */
  lemma TriedRight(s: State, j: nat, a: Answers, k: nat)
    requires s.ptr.pout == j < |s.out| && k < |s.out| && PlaneRight(s.out[k], s.ptr)
    ensures var z := PlaneStep(s, j, a); |z.out| == |s.out| && PlaneRight(z.out[k], z.ptr)
  {
    PlaceRight(s.out, s.ptr, s.ptr, true, a, k);
  }

  lemma ShowRight(s: State, t: Step, k: nat)
    requires Shape(s) && Enabled(s, t) && t.Show? && k < |s.out| && PlaneRight(s.out[k], s.ptr)
    ensures |Apply(s, t).out| == |s.out| && PlaneRight(Apply(s, t).out[k], Apply(s, t).ptr)
  {
    var o := s.out[t.k];
    ShownSame(o, t.moded, t.flipped, t.pushed);
    var m := s.(out := s.out[t.k := Shown(o, t.moded, t.flipped, t.pushed)]);
    assert SamePlane(s.out[k], m.out[k]);
    if Apply(s, t) != m {
      TriedRight(m, t.k, t.a, k);
    }
  }

  lemma PainterLeaves(s: State, t: Step, k: nat)
    requires Shape(s) && Enabled(s, t) && k < |s.out|
    requires t.Lock? || t.Paint? || t.Damage? || t.Switch? || t.Unlock?
    ensures |Apply(s, t).out| == |s.out| && SamePlane(s.out[k], Apply(s, t).out[k]) && Apply(s, t).ptr == s.ptr
  {
    assert |s.out[k].buf| == 2;
  }

  lemma ThreadLeaves(s: State, t: Step, k: nat)
    requires Shape(s) && Enabled(s, t) && k < |s.out| && OwnStep(t)
    ensures |Apply(s, t).out| == |s.out| && SamePlane(s.out[k], Apply(s, t).out[k]) && Apply(s, t).ptr == s.ptr
  {}

  lemma StepRight(s: State, t: Step)
    requires PlanesRight(s) && Enabled(s, t)
    ensures PlanesRight(Apply(s, t))
  {
    StepKeeps(s, t);
    assert Shape(s) by {
      forall k | 0 <= k < |s.out| ensures Kept(s.out[k], k, Now(s), s.lock, s.unsaid) {}
    }
    forall k | 0 <= k < |s.out| ensures |Apply(s, t).out| == |s.out| && PlaneRight(Apply(s, t).out[k], Apply(s, t).ptr) {
      if t.Show? {
        ShowRight(s, t, k);
      } else if t.CursorSet? || t.CursorHide? || t.CursorMove? {
        PointerRight(s, t, k);
      } else if OwnStep(t) {
        ThreadLeaves(s, t, k);
      } else {
        PainterLeaves(s, t, k);
      }
    }
  }

  lemma {:induction false} RunRight(states: seq<State>, steps: seq<Step>, n: nat)
    requires Run(states, steps) && n < |states|
    ensures PlanesRight(states[n])
  {
    if n == 0 {
      StartKeeps(states[0]);
    } else {
      RunRight(states, steps, n - 1);
      StepRight(states[n - 1], steps[n - 1]);
    }
  }

  // ── Where the pointer is ───────────────────────────────────────────────────

  /** In every run a pointer to be shown is drawn into the frames, or the plane of
      the display its hot spot is on shows it; and no other plane shows any, but
      one the kernel has not let go of when it was asked to. */
  lemma PointerIsSomewhere(states: seq<State>, steps: seq<Step>, n: nat)
    requires Run(states, steps) && n < |states|
    ensures var s := states[n]; 0 <= s.ptr.pout < |s.out|
    ensures var s := states[n];
            s.ptr.visible && s.ptr.loaded ==>
              Now(s).soft || Shows(s.out[s.ptr.pout].plane, s.ptr, s.out[s.ptr.pout].at)
    ensures var s := states[n];
            forall k :: 0 <= k < |s.out| && (k != s.ptr.pout || Now(s).soft || !s.ptr.visible || !s.ptr.loaded) ==>
              (s.out[k].plane.held <==> s.out[k].plane.left)
  {
    RunRight(states, steps, n);
    var s := states[n];
    assert PlaneRight(s.out[s.ptr.pout], s.ptr);
    forall k | 0 <= k < |s.out| && s.out[k].onHw ensures k == s.ptr.pout {}
  }

  /** The hot spot's display; the last one, where it is on none. */
  lemma HotSpotsDisplay(states: seq<State>, steps: seq<Step>, n: nat)
    requires Run(states, steps) && n < |states|
    ensures var s := states[n]; var p := s.ptr;
            && 0 <= p.pout < |s.out|
            && ((exists k :: 0 <= k < |s.out| && On(s.out[k].at, p.px - s.out[k].at.x, p.py - s.out[k].at.y)) ==>
                  On(s.out[p.pout].at, p.px - s.out[p.pout].at.x, p.py - s.out[p.pout].at.y))
  {
    RunKeeps(states, steps, n);
    var s := states[n];
    FirstOn(s.out, s.ptr.px, s.ptr.py, 0);
  }

  lemma {:induction false} FirstOn(out: seq<Output>, x: int, y: int, i: nat)
    requires i <= |out|
    ensures var r := OutputFrom(out, x, y, i);
            if r < 0 then forall k :: i <= k < |out| ==> !On(out[k].at, x - out[k].at.x, y - out[k].at.y)
            else i <= r < |out| && On(out[r].at, x - out[r].at.x, y - out[r].at.y)
                 && forall k :: i <= k < r ==> !On(out[k].at, x - out[k].at.x, y - out[k].at.y)
    decreases |out| - i
  {
    if i < |out| {
      FirstOn(out, x, y, i + 1);
    }
  }

  lemma PlaceIs(out: seq<Output>, p: Pointer, image: bool, a: Answers)
    requires 0 <= p.pout < |out| && p.visible && p.loaded
    ensures var (r, q) := PlacePointer(out, p, image, a);
            && 0 <= q.pout < |out| && q == p.(pout := q.pout)
            && var o := out[q.pout];
               (!Soft(r, q) <==>
                  o.shown && o.hw && p.iw <= o.capW && p.ih <= o.capH && ((o.onHw && !image) || a.taken))
  {}

  /** A pointer that is loaded is on the plane if and only if its display has a
      mode and a plane it fits that takes it. */
  lemma SetIsPlaced(s: State, t: Step)
    requires Inv(s) && t.CursorSet? && Enabled(s, t)
    ensures var z := Apply(s, t);
            && |z.out| == |s.out| && 0 <= z.ptr.pout < |s.out|
            && var o := s.out[z.ptr.pout];
               (!Now(z).soft <==> t.a.taken && o.shown && o.hw && t.w <= o.capW && t.h <= o.capH)
  {
    var p := s.ptr.(img := t.img, loaded := true, iw := t.w, ih := t.h, hx := t.hx, hy := t.hy, visible := true);
    PlaceIs(s.out, p, true, t.a);
    var (out, q) := PlacePointer(s.out, p, true, t.a);
    SwChangedLeaves(s.out, s.ptr, out, q);
  }

  /** One that is moved stays on a plane, or goes to one that takes it. */
  lemma MoveIsPlaced(s: State, t: Step)
    requires Inv(s) && t.CursorMove? && Enabled(s, t) && s.ptr.visible && s.ptr.loaded
    ensures var z := Apply(s, t);
            && |z.out| == |s.out| && 0 <= z.ptr.pout < |s.out|
            && var o := s.out[z.ptr.pout];
               (!Now(z).soft <==>
                  o.shown && o.hw && s.ptr.iw <= o.capW && s.ptr.ih <= o.capH && (o.onHw || t.a.taken))
  {
    var p := s.ptr.(px := t.x, py := t.y);
    PlaceIs(s.out, p, false, t.a);
    var (out, q) := PlacePointer(s.out, p, false, t.a);
    SwChangedLeaves(s.out, s.ptr, out, q);
  }

  lemma AskedWhere(before: seq<Output>, p: Pointer, out: seq<Output>, q: Pointer, k: nat)
    requires |before| == |out| && 0 <= q.pout < |out| && k < |out| && Soft(out, q)
    ensures var z := SwChanged(before, p, out, q)[k];
            z.at == out[k].at && (!Empty(PointerRect(z.at, q, true)) ==> z.dirty)
  {}

  /** If not, it is in every frame drawn from then on, and one is asked for of every
      display it is to be seen on. */
  lemma RefusedIsDrawn(s: State, t: Step, k: nat, x: int, y: int)
    requires Inv(s) && (t.CursorSet? || t.CursorMove?) && Enabled(s, t) && k < |s.out|
    requires Now(Apply(s, t)).soft && On(s.out[k].at, x, y)
    ensures var z := Apply(s, t);
            && |z.out| == |s.out| && z.out[k].at == s.out[k].at
            && (Under(z.out[k].at, z.ptr, x, y) ==> z.out[k].dirty)
  {
    var z := Apply(s, t);
    var p := if t.CursorSet? then s.ptr.(img := t.img, loaded := true, iw := t.w, ih := t.h, hx := t.hx, hy := t.hy, visible := true)
             else s.ptr.(px := t.x, py := t.y);
    PlaceKeeps(s.out, p, t.CursorSet?, t.a);
    var (out, q) := PlacePointer(s.out, p, t.CursorSet?, t.a);
    assert z == s.(out := SwChanged(s.out, s.ptr, out, q), ptr := q);
    SwChangedLeaves(s.out, s.ptr, out, q);
    AskedWhere(s.out, s.ptr, out, q, k);
    FrameHasPointer(s.out[k].at, View(s.src, q, true), x, y);
  }

  // ── Where every call works ─────────────────────────────────────────────────

  /** No move of a plane's pointer failed, and none was to be taken off and was
      not. */
  predicate Obeys(t: Step, n: nat) {
    t.CursorSet? || t.CursorHide? || t.CursorMove? || t.Show? ==> Works(t.a, n)
  }

  ghost predicate PlaneClean(o: Output) {
    !o.plane.left && (o.onHw ==> !o.plane.astray)
  }

  predicate Works(a: Answers, n: nat) {
    a.moved && forall k: nat :: k < n ==> k in a.hides
  }

  lemma PlaceClean(out: seq<Output>, q: Pointer, image: bool, a: Answers, k: nat)
    requires 0 <= q.pout < |out| && k < |out| && PlaneClean(out[k]) && Works(a, |out|)
    ensures PlaneClean(PlacePointer(out, q, image, a).0[k]) && PlaneClean(HideAll(out, a)[k])
  {
    assert k in a.hides;
    assert PlaneClean(PlaceOn(out[k], q, image, a, k)) && PlaneClean(HideHw(out[k], k in a.hides));
  }

  lemma ChangedClean(before: seq<Output>, p: Pointer, out: seq<Output>, q: Pointer, k: nat)
    requires |before| == |out| && k < |out| && PlaneClean(out[k])
    ensures PlaneClean(SwChanged(before, p, out, q)[k])
  {}

  lemma PointerClean(s: State, t: Step, k: nat)
    requires Shape(s) && Enabled(s, t) && k < |s.out| && PlaneClean(s.out[k])
    requires (t.CursorSet? || t.CursorHide? || t.CursorMove?) && Works(t.a, |s.out|)
    ensures |Apply(s, t).out| == |s.out| && PlaneClean(Apply(s, t).out[k])
  {
    match t
    case CursorSet(img, w, h, hx, hy, a) =>
      var p := s.ptr.(img := img, loaded := true, iw := w, ih := h, hx := hx, hy := hy, visible := true);
      var (out, q) := PlacePointer(s.out, p, true, a);
      PlaceClean(s.out, p, true, a, k);
      ChangedClean(s.out, s.ptr, out, q, k);
    case CursorHide(a) =>
      PlaceClean(s.out, s.ptr, true, a, k);
      ChangedClean(s.out, s.ptr, HideAll(s.out, a), s.ptr.(visible := false), k);
    case CursorMove(x, y, a) =>
      var p := s.ptr.(px := x, py := y);
      var (out, q) := PlacePointer(s.out, p, false, a);
      PlaceClean(s.out, p, false, a, k);
      ChangedClean(s.out, s.ptr, out, q, k);
  }

  lemma TriedClean(s: State, j: nat, a: Answers, k: nat)
    requires s.ptr.pout == j < |s.out| && k < |s.out| && PlaneClean(s.out[k]) && Works(a, |s.out|)
    ensures var z := PlaneStep(s, j, a); |z.out| == |s.out| && PlaneClean(z.out[k])
  {
    PlaceClean(s.out, s.ptr, true, a, k);
  }

  lemma ShowClean(s: State, t: Step, k: nat)
    requires Shape(s) && Enabled(s, t) && t.Show? && k < |s.out| && PlaneClean(s.out[k]) && Works(t.a, |s.out|)
    ensures |Apply(s, t).out| == |s.out| && PlaneClean(Apply(s, t).out[k])
  {
    var o := s.out[t.k];
    ShownSame(o, t.moded, t.flipped, t.pushed);
    var m := s.(out := s.out[t.k := Shown(o, t.moded, t.flipped, t.pushed)]);
    assert SamePlane(s.out[k], m.out[k]);
    if Apply(s, t) != m {
      TriedClean(m, t.k, t.a, k);
    }
  }

  lemma StepClean(s: State, t: Step, k: nat)
    requires Shape(s) && Enabled(s, t) && k < |s.out| && PlaneClean(s.out[k]) && Obeys(t, |s.out|)
    ensures |Apply(s, t).out| == |s.out| && PlaneClean(Apply(s, t).out[k])
  {
    if t.Show? {
      ShowClean(s, t, k);
    } else if OwnStep(t) {
      ThreadLeaves(s, t, k);
    } else if t.CursorSet? || t.CursorHide? || t.CursorMove? {
      PointerClean(s, t, k);
    } else {
      PainterLeaves(s, t, k);
    }
  }

  lemma {:induction false} RunClean(states: seq<State>, steps: seq<Step>, n: nat)
    requires Run(states, steps) && n < |states|
    requires forall i {:trigger steps[i]} :: 0 <= i < n ==> Obeys(steps[i], |states[i].out|)
    ensures forall k :: 0 <= k < |states[n].out| ==> PlaneClean(states[n].out[k])
  {
    if n > 0 {
      RunClean(states, steps, n - 1);
      RunKeeps(states, steps, n - 1);
      var s, t := states[n - 1], steps[n - 1];
      assert Enabled(s, t) && Shape(s) && states[n] == Apply(s, t);
      StepClean(s, t, s.ptr.pout);
      forall k | 0 <= k < |s.out| ensures PlaneClean(Apply(s, t).out[k]) {
        StepClean(s, t, k);
      }
    }
  }

  /** Then a pointer to be shown is in one place: in the frames, and on no plane; or
      on the plane of its hot spot's display, where it belongs, and on no other. */
  lemma PointerIsOnce(states: seq<State>, steps: seq<Step>, n: nat)
    requires Run(states, steps) && n < |states|
    requires forall i {:trigger steps[i]} :: 0 <= i < n ==> Obeys(steps[i], |states[i].out|)
    ensures var s := states[n]; 0 <= s.ptr.pout < |s.out|
    ensures var s := states[n];
            s.ptr.visible && s.ptr.loaded ==>
              if Now(s).soft then forall k :: 0 <= k < |s.out| ==> !s.out[k].plane.held
              else
                var o := s.out[s.ptr.pout];
                && Shows(o.plane, s.ptr, o.at)
                && o.plane.x == s.ptr.px - s.ptr.hx - o.at.x && o.plane.y == s.ptr.py - s.ptr.hy - o.at.y
                && forall k :: 0 <= k < |s.out| && k != s.ptr.pout ==> !s.out[k].plane.held
  {
    PointerIsSomewhere(states, steps, n);
    RunClean(states, steps, n);
  }
}
