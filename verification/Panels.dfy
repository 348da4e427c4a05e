/** What the panels show while the threads present and the kernel flips
    (engine/kms.c:515-543, 808-827, 873-934): when a panel shows one instant, when
    it shows the present, and exactly when neither need be so. */
module Panels {
  import opened Rects
  import opened Regions
  import opened Desktop
  import opened Presenter
  import opened PresenterSafety

  ghost predicate Exact(o: Output, j: nat, x: int, y: int)
    requires j < |o.buf|
  {
    o.buf[j].px(x, y) == Frame(o.at, o.buf[j].view, x, y)
  }

  ghost predicate BeingFilled(o: Output, j: nat, x: int, y: int) {
    o.phase.Filling? && j == o.drawing && Covers(o.phase.todo, x, y)
  }

  /** Drawn in place, and the driver not told of it yet. */
  ghost predicate Untold(o: Output, x: int, y: int) {
    && o.drawing == o.front
    && match o.phase
       case Filling(todo, _) => Covers(todo, x, y)
       case Showing(drawn) => Covers(drawn, x, y)
       case _ => false
  }

  /** A flip nobody waits for any more has still to reach the screen. */
  predicate Late(o: Output) {
    o.shown && !o.fbdev && o.glass.flight.Flight? && !o.phase.Flipping?
  }

  /** Scanning one of ours, as a mode set or a flip that worked left it. */
  predicate Lit(o: Output) {
    o.shown && !o.stuck
  }

  // ── What every state keeps ─────────────────────────────────────────────────

  /** A buffer holds the frame it was last drawn with, but where it is being
      filled. */
  ghost predicate Remembered(o: Output) {
    && |o.buf| == 2
    && forall j, x, y :: 0 <= j < 2 && o.buf[j].used && On(o.at, x, y) && !BeingFilled(o, j, x, y) ==> Exact(o, j, x, y)
  }

  /** Which buffer the CRTC scans, as the thread's place in its loop has it. */
  predicate Wired(o: Output) {
    && |o.buf| == 2 && o.front < 2 && o.drawing < 2
    && var g := o.glass;
    && g.scan < 2 && (g.flight.Flight? ==> g.flight.i < 2 && o.buf[g.flight.i].used)
    && (o.fbdev ==> g.live && g.scan == 0 && o.front == 0 && g.flight.NoFlight? && !o.stuck)
    && (o.shown ==> o.buf[g.scan].used && o.buf[o.front].used)
    && (!o.shown ==> g.flight.NoFlight? && !o.stuck)
    && (o.phase.Showing? || o.phase.Flipping? ==> o.buf[o.drawing].used)
    && (o.phase.Flipping? ==> o.shown && !o.fbdev && o.flips && o.front == 1 - o.drawing)
    && (o.pending ==> o.phase.Flipping?)
    && (o.flips ==> g.lag == iset{} && !o.stuck)
    && (Lit(o) && !o.fbdev ==>
          if o.phase.Flipping? then
            || (g.flight == Flight(o.drawing) && g.scan == o.front)
            || (g.flight == NoFlight && g.scan == o.drawing)
          else
            || (g.flight == NoFlight && g.scan == o.front)
            || (g.flight == Flight(o.front) && g.scan == 1 - o.front && o.flips))
  }

  /** The driver's copy at a pixel. */
  ghost predicate CopyAt(o: Output, x: int, y: int)
    requires |o.buf| == 2 && o.glass.scan < 2
  {
    var g := o.glass;
    || Untold(o, x, y) || (x, y) in g.lag
    || (g.panel(x, y) == Frame(o.at, g.onScreen, x, y)
        && (g.scan == o.front || o.phase.Flipping? ==> g.panel(x, y) == o.buf[g.scan].px(x, y)))
  }

  ghost predicate Copied(o: Output)
    requires |o.buf| == 2 && o.glass.scan < 2
  {
    Lit(o) && !o.fbdev ==> forall x, y :: On(o.at, x, y) ==> CopyAt(o, x, y)
  }

  ghost predicate Seen(o: Output) {
    Remembered(o) && Wired(o) && Copied(o)
  }

  ghost predicate AllSeen(s: State) {
    Inv(s) && forall k :: 0 <= k < |s.out| ==> Seen(s.out[k])
  }

  lemma StartSeen(s: State)
    requires Start(s)
    ensures AllSeen(s)
  {
    StartKeeps(s);
  }

  /** Damage, frames asked for and the cursor plane are nothing to the panel. */

  ghost predicate SameToTheEye(a: Output, b: Output) {
    && |a.buf| == |b.buf| == 2
    && b == a.(dirty := b.dirty, hw := b.hw, onHw := b.onHw, plane := b.plane, buf := b.buf)
    && forall j :: 0 <= j < 2 ==> b.buf[j] == a.buf[j].(damage := b.buf[j].damage)
  }

  lemma SameSeen(a: Output, b: Output)
    requires Seen(a) && SameToTheEye(a, b)
    ensures Seen(b)
  {
    forall j, x, y | 0 <= j < 2 && b.buf[j].used && On(b.at, x, y) && !BeingFilled(b, j, x, y) ensures Exact(b, j, x, y) {
      assert !BeingFilled(a, j, x, y);
      assert Exact(a, j, x, y);
    }
    forall x, y | Lit(b) && !b.fbdev && On(b.at, x, y) ensures CopyAt(b, x, y) {
      assert CopyAt(a, x, y);
    }
  }

  // ── The thread's steps ─────────────────────────────────────────────────────

  lemma WakeSeen(o: Output)
    requires Seen(o) && o.phase.Waiting?
    ensures Seen(o.(phase := Woken, dirty := false))
  {
    var z := o.(phase := Woken, dirty := false);
    forall j, x, y | 0 <= j < 2 && z.buf[j].used && On(z.at, x, y) ensures Exact(z, j, x, y) {
      assert Exact(o, j, x, y);
    }
    forall x, y | Lit(z) && !z.fbdev && On(z.at, x, y) ensures CopyAt(z, x, y) {
      assert CopyAt(o, x, y);
    }
  }

  lemma TakeSeen(o: Output)
    requires Seen(o) && Sound(o) && o.phase.Woken?
    ensures Seen(Taken(o))
  {
    var z := Taken(o);
    forall j, x, y | 0 <= j < 2 && z.buf[j].used && On(z.at, x, y) && !BeingFilled(z, j, x, y) ensures Exact(z, j, x, y) {
      assert Exact(o, j, x, y);
    }
    forall x, y | Lit(z) && !z.fbdev && On(z.at, x, y) ensures CopyAt(z, x, y) {
      assert CopyAt(o, x, y);
    }
  }

  lemma FillSeen(o: Output, s: Source)
    requires Seen(o) && Sound(o) && o.phase.Filling? && o.phase.done < |o.phase.todo|
    ensures Seen(Filled(o, s))
  {
    var z := Filled(o, s);
    var r := o.phase.todo[o.phase.done];
    forall x, y | Has(r, x, y) ensures Covers(o.phase.todo, x, y) {}
    forall j, x, y | 0 <= j < 2 && z.buf[j].used && On(z.at, x, y) && !BeingFilled(z, j, x, y) ensures Exact(z, j, x, y) {
      assert !BeingFilled(o, j, x, y);
      assert Exact(o, j, x, y);
    }
    forall x, y | Lit(z) && !z.fbdev && On(z.at, x, y) ensures CopyAt(z, x, y) {
      assert CopyAt(o, x, y);
    }
  }

  lemma DrawSeen(o: Output, v: View)
    requires Seen(o) && Sound(o) && o.phase.Filling? && o.phase.done == |o.phase.todo|
    requires forall x, y :: On(o.at, x, y) ==> Drawn(o, v).buf[o.drawing].px(x, y) == Frame(o.at, v, x, y)
    ensures Seen(Drawn(o, v))
  {
    var z := Drawn(o, v);
    var (todo, r) := (o.phase.todo, PointerRect(o.at, v.ptr, v.soft));
    forall j, x, y | 0 <= j < 2 && z.buf[j].used && On(z.at, x, y) ensures Exact(z, j, x, y) {
      assert j != o.drawing ==> Exact(o, j, x, y);
    }
    forall x, y | Lit(z) && !z.fbdev && On(z.at, x, y) ensures CopyAt(z, x, y) {
      assert CopyAt(o, x, y);
      if Covers(todo, x, y) || Has(r, x, y) {
        AddCovers(todo, r, x, y);
      }
    }
  }

  /** The eighteen clips are always room enough, and sixteen bits for each. */
  lemma PushedIsAll(o: Place, panel: Image, px: Image, drawn: seq<Rect>, x: int, y: int)
    requires 0 < o.w < 0x1_0000 && 0 < o.h < 0x1_0000
    requires Apart(drawn) && Within(drawn, Whole(o))
    ensures Pushed(panel, px, drawn)(x, y) == if Covers(drawn, x, y) then px(x, y) else panel(x, y)
  {
    var clips := seq(Min(|drawn|, REGION_RECTS + 2), i requires 0 <= i < |drawn| => ClipOf(drawn[i]));
    assert clips == drawn by {
      forall i | 0 <= i < |drawn| ensures ClipOf(drawn[i]) == drawn[i] {
        assert Inside(drawn[i], Whole(o)) && !Empty(drawn[i]);
      }
    }
  }

  /** Drawn in place: the driver is told, and does it or does not. */
  lemma ToldSeen(o: Output, pushed: bool)
    requires Seen(o) && Sound(o) && o.phase.Showing? && o.shown && !o.fbdev && !o.flips
    ensures Seen(Shown(o, false, false, pushed))
  {
    var z := Shown(o, false, false, pushed);
    var b := o.buf[o.drawing];
    forall j, x, y | 0 <= j < 2 && z.buf[j].used && On(z.at, x, y) ensures Exact(z, j, x, y) {
      assert Exact(o, j, x, y);
    }
    forall x, y | Lit(z) && On(z.at, x, y) ensures CopyAt(z, x, y) {
      assert CopyAt(o, x, y);
      assert Exact(o, o.drawing, x, y);
      PushedIsAll(o.at, o.glass.panel, b.px, o.phase.drawn, x, y);
    }
  }

  /** A mode set that works. */
  lemma ModedSeen(o: Output, flipped: bool, pushed: bool)
    requires Seen(o) && Sound(o) && o.phase.Showing? && !o.fbdev && (!o.shown || (o.flips && !flipped))
    ensures Seen(Shown(o, true, flipped, pushed))
  {
    var z := Shown(o, true, flipped, pushed);
    forall j, x, y | 0 <= j < 2 && z.buf[j].used && On(z.at, x, y) ensures Exact(z, j, x, y) {
      assert Exact(o, j, x, y);
    }
    forall x, y | Lit(z) && On(z.at, x, y) ensures CopyAt(z, x, y) {
      assert Exact(o, o.drawing, x, y);
    }
  }

  lemma QueuedSeen(o: Output, moded: bool, pushed: bool)
    requires Seen(o) && Sound(o) && o.phase.Showing? && !o.fbdev && o.shown && o.flips && o.glass.flight.NoFlight?
    ensures Seen(Shown(o, moded, true, pushed))
  {
    var z := Shown(o, moded, true, pushed);
    forall j, x, y | 0 <= j < 2 && z.buf[j].used && On(z.at, x, y) ensures Exact(z, j, x, y) {
      assert Exact(o, j, x, y);
    }
    forall x, y | Lit(z) && On(z.at, x, y) ensures CopyAt(z, x, y) {
      assert CopyAt(o, x, y);
    }
  }

  lemma ShownSeen(o: Output, moded: bool, flipped: bool, pushed: bool)
    requires Seen(o) && Sound(o) && o.phase.Showing? && (flipped ==> o.glass.flight.NoFlight?)
    ensures Seen(Shown(o, moded, flipped, pushed))
  {
    var z := Shown(o, moded, flipped, pushed);
    if !o.fbdev && o.shown && !o.flips {
      ToldSeen(o, pushed);
    } else if !o.fbdev && o.shown && flipped {
      QueuedSeen(o, moded, pushed);
    } else if !o.fbdev && moded {
      ModedSeen(o, flipped, pushed);
    } else {
      forall j, x, y | 0 <= j < 2 && z.buf[j].used && On(z.at, x, y) ensures Exact(z, j, x, y) {
        assert Exact(o, j, x, y);
      }
    }
  }

  lemma WaitedSeen(o: Output)
    requires Seen(o) && o.phase.Flipping?
    ensures Seen(Waited(o))
  {
    var z := Waited(o);
    forall j, x, y | 0 <= j < 2 && z.buf[j].used && On(z.at, x, y) ensures Exact(z, j, x, y) {
      assert Exact(o, j, x, y);
    }
    forall x, y | Lit(z) && On(z.at, x, y) ensures CopyAt(z, x, y) {
      assert CopyAt(o, x, y);
    }
  }

  // ── The kernel's steps ─────────────────────────────────────────────────────

  lemma FlippedSeen(o: Output)
    requires Seen(o) && o.glass.flight.Flight?
    ensures Seen(o.(glass := FlipDone(o.glass, o.buf)))
  {
    var z := o.(glass := FlipDone(o.glass, o.buf));
    forall j, x, y | 0 <= j < 2 && z.buf[j].used && On(z.at, x, y) && !BeingFilled(z, j, x, y) ensures Exact(z, j, x, y) {
      assert !BeingFilled(o, j, x, y);
      assert Exact(o, j, x, y);
    }
    forall x, y | Lit(z) && On(z.at, x, y) ensures CopyAt(z, x, y) {
      if !BeingFilled(o, o.glass.flight.i, x, y) {
        assert Exact(o, o.glass.flight.i, x, y);
      }
    }
  }

  lemma EventSeen(o: Output, events: nat)
    requires Seen(o)
    ensures Seen(o.(pending := false, glass := o.glass.(events := events)))
  {
    var z := o.(pending := false, glass := o.glass.(events := events));
    forall j, x, y | 0 <= j < 2 && z.buf[j].used && On(z.at, x, y) && !BeingFilled(z, j, x, y) ensures Exact(z, j, x, y) {
      assert !BeingFilled(o, j, x, y);
      assert Exact(o, j, x, y);
    }
    forall x, y | Lit(z) && !z.fbdev && On(z.at, x, y) ensures CopyAt(z, x, y) {
      assert CopyAt(o, x, y);
    }
  }

  // ── Every step ─────────────────────────────────────────────────────────────

  lemma PlaceSame(out: seq<Output>, p: Pointer, image: bool, a: Answers, k: nat)
    requires 0 <= p.pout < |out| && k < |out| && |out[k].buf| == 2
    ensures SameToTheEye(out[k], PlacePointer(out, p, image, a).0[k])
  {
    var o := out[k];
    assert SameToTheEye(o, PlaceOn(o, p, image, a, k)) && SameToTheEye(o, HideHw(o, k in a.hides));
  }

  lemma ChangeSame(before: seq<Output>, p: Pointer, out: seq<Output>, q: Pointer, k: nat)
    requires |before| == |out| && k < |out| && SameToTheEye(before[k], out[k])
    ensures SameToTheEye(before[k], SwChanged(before, p, out, q)[k])
  {}

  /** What the pointer's steps leave of every display. */
  lemma PointerSeen(s: State, t: Step, k: nat)
    requires AllSeen(s) && Enabled(s, t) && k < |s.out| && (t.CursorSet? || t.CursorHide? || t.CursorMove?)
    ensures |Apply(s, t).out| == |s.out| && SameToTheEye(s.out[k], Apply(s, t).out[k])
  {
    assert Seen(s.out[k]);
    match t
    case CursorSet(img, w, h, hx, hy, a) =>
      var p := s.ptr.(img := img, loaded := true, iw := w, ih := h, hx := hx, hy := hy, visible := true);
      var (out, q) := PlacePointer(s.out, p, true, a);
      PlaceSame(s.out, p, true, a, k);
      ChangeSame(s.out, s.ptr, out, q, k);
    case CursorHide(a) =>
      var out := HideAll(s.out, a);
      ChangeSame(s.out, s.ptr, out, s.ptr.(visible := false), k);
    case CursorMove(x, y, a) =>
      var p := s.ptr.(px := x, py := y);
      var (out, q) := PlacePointer(s.out, p, false, a);
      PlaceSame(s.out, p, false, a, k);
      ChangeSame(s.out, s.ptr, out, q, k);
  }

  lemma RegrownSame(o: Output, g: seq<Rect>, h: seq<Rect>)
    requires |o.buf| == 2
    ensures SameToTheEye(o, Regrown(o, g, h)) && SameToTheEye(o, o)
  {}

  lemma DamagedSame(o: Output, r: Rect)
    requires |o.buf| == 2
    ensures SameToTheEye(o, Damaged(o, r)) && SameToTheEye(o, DamagedAll(o))
  {
    RegrownSame(o, AddTo(o.buf[0].damage, r), AddTo(o.buf[1].damage, r));
    RegrownSame(o, AddTo([], Whole(o.at)), AddTo([], Whole(o.at)));
    assert DamagedAll(o) == Regrown(o, AddTo([], Whole(o.at)), AddTo([], Whole(o.at)));
    assert Empty(r) || Damaged(o, r) == Regrown(o, AddTo(o.buf[0].damage, r), AddTo(o.buf[1].damage, r));
  }

  /** What the painter's leave of it. */
  lemma PainterSeen(s: State, t: Step, k: nat)
    requires AllSeen(s) && Enabled(s, t) && k < |s.out|
    requires t.Lock? || t.Paint? || t.Damage? || t.Switch? || t.Unlock?
    ensures |Apply(s, t).out| == |s.out| && SameToTheEye(s.out[k], Apply(s, t).out[k])
  {
    assert Seen(s.out[k]);
    match t
    case Damage(x, y, w, h) => DamagedSame(s.out[k], DamageRect(s.out[k].at, s.src, x, y, w, h));
    case Switch(_, _, _, _, _, _) => DamagedSame(s.out[k], NOWHERE);
    case _ =>
  }

  lemma PlaneSeen(s: State, k: nat, a: Answers, j: nat)
    requires s.ptr.pout == k < |s.out| && j < |s.out| && |s.out[j].buf| == 2
    ensures var z := PlaneStep(s, k, a); |z.out| == |s.out| && SameToTheEye(s.out[j], z.out[j])
  {
    PlaceSame(s.out, s.ptr, true, a, j);
  }

  lemma DrawStepSeen(s: State, k: nat)
    requires AllSeen(s) && Enabled(s, Draw(k))
    ensures Seen(Drawn(s.out[k], Now(s)))
  {
    var o := s.out[k];
    assert Kept(o, k, Now(s), s.lock, s.unsaid) && Seen(o);
    forall x, y | On(o.at, x, y) ensures Drawn(o, Now(s)).buf[o.drawing].px(x, y) == Frame(o.at, Now(s), x, y) {
      DrawnFrameIsExact(s, k, x, y);
    }
    DrawSeen(o, Now(s));
  }

  /** A display after a step of its own thread, or of the kernel's for it. */
  lemma ThreadSeen(s: State, t: Step)
    requires AllSeen(s) && Enabled(s, t) && (t.Wake? || t.Take? || t.Fill? || t.Draw?)
    ensures |Apply(s, t).out| == |s.out| && Seen(Apply(s, t).out[t.k])
  {
    var o, z := s.out[t.k], Apply(s, t).out[t.k];
    assert Kept(o, t.k, Now(s), s.lock, s.unsaid) && Seen(o);
    if t.Wake? {
      assert z == o.(phase := Woken, dirty := false);
      WakeSeen(o);
    } else if t.Take? {
      assert z == Taken(o);
      TakeSeen(o);
    } else if t.Fill? {
      assert z == Filled(o, s.src);
      FillSeen(o, s.src);
    } else {
      assert z == Drawn(o, Now(s));
      DrawStepSeen(s, t.k);
    }
  }

  lemma KernelSeen(s: State, t: Step)
    requires Shape(s) && Enabled(s, t) && (t.Flipped? || t.Event? || t.Arrived? || t.TimedOut?) && Seen(s.out[t.k])
    ensures |Apply(s, t).out| == |s.out| && Seen(Apply(s, t).out[t.k])
  {
    var o, z := s.out[t.k], Apply(s, t).out[t.k];
    if t.Flipped? {
      assert z == o.(glass := FlipDone(o.glass, o.buf));
      FlippedSeen(o);
    } else if t.Event? {
      assert z == o.(pending := false, glass := o.glass.(events := o.glass.events - 1));
      EventSeen(o, o.glass.events - 1);
    } else {
      assert z == Waited(o);
      WaitedSeen(o);
    }
  }

  lemma OthersStay(s: State, t: Step, k: nat)
    requires Shape(s) && Enabled(s, t) && OwnStep(t) && k < |s.out| && k != t.k
    ensures |Apply(s, t).out| == |s.out| && Apply(s, t).out[k] == s.out[k]
  {}

  lemma ShowSeen(s: State, t: Step, k: nat)
    requires Shape(s) && Enabled(s, t) && t.Show? && k < |s.out|
    requires Sound(s.out[t.k]) && Seen(s.out[t.k]) && Seen(s.out[k])
    ensures |Apply(s, t).out| == |s.out| && Seen(Apply(s, t).out[k])
  {
    var o := s.out[t.k];
    var m := s.(out := s.out[t.k := Shown(o, t.moded, t.flipped, t.pushed)]);
    ShownSeen(o, t.moded, t.flipped, t.pushed);
    assert Seen(m.out[k]);
    if Apply(s, t) != m {
      PlaneSeen(m, t.k, t.a, k);
      SameSeen(m.out[k], Apply(s, t).out[k]);
    }
  }

  lemma DisplaySeen(s: State, t: Step, k: nat)
    requires AllSeen(s) && Enabled(s, t) && k < |s.out|
    ensures |Apply(s, t).out| == |s.out| && Seen(Apply(s, t).out[k])
  {
    assert Seen(s.out[k]);
    if t.Show? {
      assert Seen(s.out[t.k]) && Kept(s.out[t.k], t.k, Now(s), s.lock, s.unsaid);
      ShowSeen(s, t, k);
    } else if OwnStep(t) && t.k != k {
      OthersStay(s, t, k);
    } else if t.Wake? || t.Take? || t.Fill? || t.Draw? {
      ThreadSeen(s, t);
    } else if OwnStep(t) {
      assert t.k == k;
      KernelSeen(s, t);
    } else if t.CursorSet? || t.CursorHide? || t.CursorMove? {
      PointerSeen(s, t, k);
      SameSeen(s.out[k], Apply(s, t).out[k]);
    } else {
      PainterSeen(s, t, k);
      SameSeen(s.out[k], Apply(s, t).out[k]);
    }
  }

  lemma StepSeen(s: State, t: Step)
    requires AllSeen(s) && Enabled(s, t)
    ensures AllSeen(Apply(s, t))
  {
    StepKeeps(s, t);
    DisplaySeen(s, t, s.ptr.pout);
    forall k | 0 <= k < |s.out| ensures Seen(Apply(s, t).out[k]) {
      DisplaySeen(s, t, k);
    }
  }

  lemma {:induction false} RunSeen(states: seq<State>, steps: seq<Step>, n: nat)
    requires Run(states, steps) && n < |states|
    ensures AllSeen(states[n])
  {
    if n == 0 {
      StartSeen(states[0]);
    } else {
      RunSeen(states, steps, n - 1);
      StepSeen(states[n - 1], steps[n - 1]);
    }
  }

  // ── The instants remembered ────────────────────────────────────────────────

  /** Every view z remembers, o does, or it is v's. */
  ghost predicate RemembersOnly(o: Output, z: Output, v: View) {
    && |o.buf| == |z.buf| == 2
    && (forall j :: 0 <= j < 2 && z.buf[j].used ==> z.buf[j].view == v || (o.buf[j].used && z.buf[j].view == o.buf[j].view))
    && (Lit(z) && !z.fbdev ==>
          || (Lit(o) && !o.fbdev && z.glass.onScreen == o.glass.onScreen)
          || exists j :: 0 <= j < 2 && o.buf[j].used && z.glass.onScreen == o.buf[j].view)
  }

  lemma SameRemembers(o: Output, m: Output, z: Output, v: View)
    requires RemembersOnly(o, m, v) && SameToTheEye(m, z)
    ensures RemembersOnly(o, z, v)
  {}

  lemma FlippedRemembers(o: Output, v: View)
    requires Seen(o) && o.glass.flight.Flight?
    ensures RemembersOnly(o, o.(glass := FlipDone(o.glass, o.buf)), v)
  {}

  lemma DrawnRemembers(o: Output, v: View)
    requires |o.buf| == 2 && o.drawing < 2 && o.phase.Filling?
    ensures RemembersOnly(o, Drawn(o, v), v)
  {}

  /** A step that draws nothing and shows nothing. */
  lemma QuietRemembers(o: Output, z: Output, v: View)
    requires |o.buf| == |z.buf| == 2
    requires forall j :: 0 <= j < 2 ==> z.buf[j].used == o.buf[j].used && z.buf[j].view == o.buf[j].view
    requires Lit(z) == Lit(o) && z.fbdev == o.fbdev && z.glass.onScreen == o.glass.onScreen
    ensures RemembersOnly(o, z, v)
  {}

  lemma ThreadRemembers(s: State, t: Step)
    requires Shape(s) && Enabled(s, t) && (t.Wake? || t.Take? || t.Fill? || t.Draw?)
    ensures |Apply(s, t).out| == |s.out| && RemembersOnly(s.out[t.k], Apply(s, t).out[t.k], Now(s))
  {
    var o, z := s.out[t.k], Apply(s, t).out[t.k];
    if t.Draw? {
      assert z == Drawn(o, Now(s));
      DrawnRemembers(o, Now(s));
    } else {
      QuietRemembers(o, z, Now(s));
    }
  }

  lemma KernelRemembers(s: State, t: Step)
    requires Shape(s) && Enabled(s, t) && (t.Flipped? || t.Event? || t.Arrived? || t.TimedOut?) && Seen(s.out[t.k])
    ensures |Apply(s, t).out| == |s.out| && RemembersOnly(s.out[t.k], Apply(s, t).out[t.k], Now(s))
  {
    var o, z := s.out[t.k], Apply(s, t).out[t.k];
    if t.Flipped? {
      assert z == o.(glass := FlipDone(o.glass, o.buf));
      FlippedRemembers(o, Now(s));
    } else {
      QuietRemembers(o, z, Now(s));
    }
  }

  lemma ShownRemembers(o: Output, moded: bool, flipped: bool, pushed: bool, v: View)
    requires |o.buf| == 2 && o.drawing < 2 && o.phase.Showing? && o.buf[o.drawing].used
    ensures RemembersOnly(o, Shown(o, moded, flipped, pushed), v)
  {}

  lemma ShowRemembers(s: State, t: Step, k: nat)
    requires Shape(s) && Enabled(s, t) && t.Show? && k < |s.out| && s.out[t.k].buf[s.out[t.k].drawing].used
    requires RemembersOnly(s.out[k], s.out[k], Now(s))
    ensures |Apply(s, t).out| == |s.out| && RemembersOnly(s.out[k], Apply(s, t).out[k], Now(s))
  {
    var o, p := s.out[k], s.out[t.k];
    var m := s.(out := s.out[t.k := Shown(p, t.moded, t.flipped, t.pushed)]);
    ShownRemembers(p, t.moded, t.flipped, t.pushed, Now(s));
    if Apply(s, t) != m {
      PlaneSeen(m, t.k, t.a, k);
      SameRemembers(o, m.out[k], Apply(s, t).out[k], Now(s));
    }
  }

  lemma DisplayRemembers(s: State, t: Step, k: nat)
    requires AllSeen(s) && Enabled(s, t) && k < |s.out|
    ensures |Apply(s, t).out| == |s.out| && RemembersOnly(s.out[k], Apply(s, t).out[k], Now(s))
  {
    var o := s.out[k];
    assert Seen(o) && RemembersOnly(o, o, Now(s));
    if t.Show? {
      ShowRemembers(s, t, k);
    } else if OwnStep(t) && t.k != k {
      OthersStay(s, t, k);
    } else if t.Wake? || t.Take? || t.Fill? || t.Draw? {
      ThreadRemembers(s, t);
    } else if OwnStep(t) {
      KernelRemembers(s, t);
    } else {
      if t.CursorSet? || t.CursorHide? || t.CursorMove? {
        PointerSeen(s, t, k);
      } else {
        PainterSeen(s, t, k);
      }
      SameRemembers(o, o, Apply(s, t).out[k], Now(s));
    }
  }

  ghost predicate Past(states: seq<State>, n: nat, v: View)
    requires n < |states|
  {
    exists m :: 0 <= m <= n && v == Now(states[m])
  }

  /** All that o remembers was. */
  ghost predicate AllPast(states: seq<State>, n: nat, o: Output)
    requires n < |states|
  {
    && (forall j :: 0 <= j < |o.buf| && o.buf[j].used ==> Past(states, n, o.buf[j].view))
    && (Lit(o) && !o.fbdev ==> Past(states, n, o.glass.onScreen))
  }

  lemma PastGrows(states: seq<State>, n: nat, o: Output, z: Output)
    requires n + 1 < |states| && AllPast(states, n, o) && RemembersOnly(o, z, Now(states[n]))
    ensures AllPast(states, n + 1, z)
  {
    assert forall v: View :: Past(states, n, v) ==> Past(states, n + 1, v);
    assert Past(states, n, Now(states[n]));
  }

  lemma StepRemembers(states: seq<State>, steps: seq<Step>, n: nat, k: nat)
    requires Run(states, steps) && n < |steps| && k < |states[n + 1].out|
    ensures k < |states[n].out| && RemembersOnly(states[n].out[k], states[n + 1].out[k], Now(states[n]))
  {
    var s, t := states[n], steps[n];
    RunSeen(states, steps, n);
    assert Enabled(s, t) && states[n + 1] == Apply(s, t);
    DisplaySeen(s, t, s.ptr.pout);
    DisplayRemembers(s, t, k);
  }

  /** What a display's buffers were drawn with, and what a driver has copied, are
      the desktop and the pointer of instants that were. */
  lemma {:induction false} OnScreenIsPast(states: seq<State>, steps: seq<Step>, n: nat, k: nat)
    requires Run(states, steps) && n < |states| && k < |states[n].out|
    ensures AllPast(states, n, states[n].out[k])
    decreases n
  {
    if n > 0 {
      StepRemembers(states, steps, n - 1, k);
      OnScreenIsPast(states, steps, n - 1, k);
      PastGrows(states, n - 1, states[n - 1].out[k], states[n].out[k]);
    }
  }

  // ── What the panel shows ───────────────────────────────────────────────────

  ghost function Panel(o: Output): Image
    requires |o.buf| == 2 && o.glass.scan < 2
  {
    if o.glass.live then o.buf[o.glass.scan].px else o.glass.panel
  }

  /** The instant of the frame on the panel. */
  ghost function OnGlass(o: Output): View
    requires |o.buf| == 2 && o.glass.scan < 2
  {
    if o.glass.live then o.buf[o.glass.scan].view else o.glass.onScreen
  }

  /** A pixel the panel may have of another instant: being copied into the buffer
      on the screen; or changed in it and not copied by the driver, as not yet
      told or told in vain. */
  ghost predicate Torn(o: Output, x: int, y: int) {
    if o.glass.live then BeingFilled(o, o.glass.scan, x, y) else Untold(o, x, y) || (x, y) in o.glass.lag
  }

  lemma PanelIsOnGlass(o: Output, x: int, y: int)
    requires Seen(o) && Lit(o) && On(o.at, x, y) && !Torn(o, x, y)
    ensures Panel(o)(x, y) == Frame(o.at, OnGlass(o), x, y)
  {
    if o.glass.live {
      assert Exact(o, o.glass.scan, x, y);
    } else {
      assert CopyAt(o, x, y);
    }
  }

  /** Where it is not torn, a panel shows the desktop and the pointer of one
      instant that was. */
  lemma PanelsShowOneInstant(states: seq<State>, steps: seq<Step>, n: nat, k: nat)
    requires Run(states, steps) && n < |states| && k < |states[n].out| && Lit(states[n].out[k])
    ensures |states[n].out[k].buf| == 2 && states[n].out[k].glass.scan < 2
    ensures var o := states[n].out[k];
            exists m :: 0 <= m <= n
              && forall x, y :: On(o.at, x, y) && !Torn(o, x, y) ==> Panel(o)(x, y) == Frame(o.at, Now(states[m]), x, y)
  {
    RunSeen(states, steps, n);
    OnScreenIsPast(states, steps, n, k);
    var o := states[n].out[k];
    assert Seen(o) && Past(states, n, OnGlass(o));
    var m :| 0 <= m <= n && OnGlass(o) == Now(states[m]);
    forall x, y | On(o.at, x, y) && !Torn(o, x, y) ensures Panel(o)(x, y) == Frame(o.at, Now(states[m]), x, y) {
      PanelIsOnGlass(o, x, y);
    }
  }

  /** A display that flips is torn where its thread is copying if and only if a
      flip no longer waited for has still to reach the screen and the panel is the
      buffer itself: only then is the buffer drawn into the one looked at. */
  lemma TornIffLate(states: seq<State>, steps: seq<Step>, n: nat, k: nat, x: int, y: int)
    requires Run(states, steps) && n < |states| && k < |states[n].out|
    requires Lit(states[n].out[k]) && states[n].out[k].flips && !states[n].out[k].fbdev
    ensures var o := states[n].out[k];
            && (o.phase.Filling? ==> (o.drawing == o.glass.scan <==> Late(o)))
            && (Torn(o, x, y) <==> o.phase.Filling? && Covers(o.phase.todo, x, y) && Late(o) && o.glass.live)
  {
    RunSeen(states, steps, n);
    var s := states[n];
    var o := s.out[k];
    assert Seen(o) && Kept(o, k, Now(s), s.lock, s.unsaid);
  }

  /** Without tearing: unless that is so, the panel of a display that flips is,
      whole, one instant. */
  lemma FlippedPanelsShowOneInstant(states: seq<State>, steps: seq<Step>, n: nat, k: nat)
    requires Run(states, steps) && n < |states| && k < |states[n].out|
    requires var o := states[n].out[k];
             Lit(o) && o.flips && !o.fbdev && !(o.phase.Filling? && Late(o) && o.glass.live)
    ensures |states[n].out[k].buf| == 2 && states[n].out[k].glass.scan < 2
    ensures var o := states[n].out[k];
            exists m :: 0 <= m <= n && forall x, y :: On(o.at, x, y) ==> Panel(o)(x, y) == Frame(o.at, Now(states[m]), x, y)
  {
    PanelsShowOneInstant(states, steps, n, k);
    var o := states[n].out[k];
    var m :| 0 <= m <= n && forall x, y :: On(o.at, x, y) && !Torn(o, x, y) ==>
                                Panel(o)(x, y) == Frame(o.at, Now(states[m]), x, y);
    forall x, y | On(o.at, x, y) ensures Panel(o)(x, y) == Frame(o.at, Now(states[m]), x, y) {
      TornIffLate(states, steps, n, k, x, y);
    }
  }

  /** What was drawn is on the panel, to the pixel. */
  ghost predicate IsUp(o: Output, v: View) {
    && Lit(o) && |o.buf| == 2 && o.glass.scan == o.front < 2
    && forall x, y :: On(o.at, x, y) ==> Panel(o)(x, y) == Frame(o.at, v, x, y)
  }

  /** What showing makes of display o: one drawn in place has the frame up at once,
      and so has one whose mode is set; one that flips has it up once the flip is
      done and waited for; one whose mode cannot be set stays as it was. A display
      whose flip fails is drawn in place from then on. */
  ghost predicate PutsUp(o: Output, z: Output, moded: bool, flipped: bool, v: View) {
    && z.flips == (o.flips && (!o.shown || flipped))
    && if o.fbdev || ((!o.shown || (o.flips && !flipped)) && moded) then IsUp(z, v)
       else if !o.shown then !z.shown && z.glass == o.glass && z.front == o.front
       else if o.flips && flipped then
         && z.phase.Flipping? && z.pending && z.glass.flight.Flight? && z.glass.flight.i < |z.buf|
         && IsUp(Waited(z.(glass := FlipDone(z.glass, z.buf))), v)
       else if o.flips then !Lit(z)
       else Lit(o) && o.glass.live && o.glass.scan == o.front ==> IsUp(z, v)
  }

  /** A driver that copies lags where it is told in vain, until it is told again. */
  ghost predicate Lags(o: Output, z: Output, pushed: bool)
    requires o.phase.Showing?
  {
    Lit(o) && !o.fbdev && !o.flips && o.glass.scan == o.front ==>
      forall x, y :: (x, y) in z.glass.lag <==> if Covers(o.phase.drawn, x, y) then !pushed else (x, y) in o.glass.lag
  }

  lemma ShownLags(o: Output, moded: bool, flipped: bool, pushed: bool)
    requires |o.buf| == 2 && o.phase.Showing? && Sound(o)
    ensures Lags(o, Shown(o, moded, flipped, pushed), pushed)
  {
    forall x, y ensures (x, y) in Covered(o.phase.drawn) <==> Covers(o.phase.drawn, x, y) {
      assert (x, y).0 == x && (x, y).1 == y;
    }
  }

  lemma UpStays(a: Output, b: Output, v: View)
    requires SameToTheEye(a, b) && IsUp(a, v)
    ensures IsUp(b, v)
  {
    forall x, y | On(b.at, x, y) ensures Panel(b)(x, y) == Frame(b.at, v, x, y) {
      assert Panel(a)(x, y) == Panel(b)(x, y);
    }
  }

  lemma InPlaceIsUp(o: Output, moded: bool, flipped: bool, pushed: bool)
    requires Wired(o) && Sound(o) && o.phase.Showing?
    requires forall x, y :: On(o.at, x, y) ==> Exact(o, o.drawing, x, y)
    requires o.fbdev || (o.shown && !o.flips)
    ensures PutsUp(o, Shown(o, moded, flipped, pushed), moded, flipped, o.buf[o.drawing].view)
  {}

  lemma FlippedIsUp(o: Output, moded: bool, flipped: bool, pushed: bool)
    requires Wired(o) && Sound(o) && o.phase.Showing?
    requires forall x, y :: On(o.at, x, y) ==> Exact(o, o.drawing, x, y)
    requires !o.fbdev && o.shown && o.flips && flipped
    ensures PutsUp(o, Shown(o, moded, flipped, pushed), moded, flipped, o.buf[o.drawing].view)
  {}

  lemma UpAtOnce(o: Output, moded: bool, flipped: bool, pushed: bool)
    requires Wired(o) && Sound(o) && o.phase.Showing?
    requires forall x, y :: On(o.at, x, y) ==> Exact(o, o.drawing, x, y)
    ensures PutsUp(o, Shown(o, moded, flipped, pushed), moded, flipped, o.buf[o.drawing].view)
  {
    if o.fbdev || (o.shown && !o.flips) {
      InPlaceIsUp(o, moded, flipped, pushed);
    } else if o.shown && flipped {
      FlippedIsUp(o, moded, flipped, pushed);
    }
  }

  lemma TriedStays(m: State, k: nat, a: Answers, v: View)
    requires m.ptr.pout == k < |m.out| && IsUp(m.out[k], v)
    ensures var z := PlaneStep(m, k, a);
            |z.out| == |m.out| && IsUp(z.out[k], v) && z.out[k].flips == m.out[k].flips && z.out[k].glass == m.out[k].glass
  {
    PlaceSame(m.out, m.ptr, true, a, k);
    UpStays(m.out[k], PlaneStep(m, k, a).out[k], v);
  }

  lemma TriedIsUp(o: Output, m: State, k: nat, a: Answers, flipped: bool, pushed: bool, v: View)
    requires o.phase.Showing? && !o.fbdev && !o.shown && m.ptr.pout == k < |m.out|
    requires PutsUp(o, m.out[k], true, flipped, v) && Lags(o, m.out[k], pushed)
    ensures |PlaneStep(m, k, a).out| == |m.out|
    ensures PutsUp(o, PlaneStep(m, k, a).out[k], true, flipped, v) && Lags(o, PlaneStep(m, k, a).out[k], pushed)
  {
    TriedStays(m, k, a, v);
  }

  /** A frame to be shown is, all of it, of the instant it was drawn. */
  lemma ShowingIs(states: seq<State>, steps: seq<Step>, n: nat, k: nat)
    requires Run(states, steps) && n < |states| && k < |states[n].out| && states[n].out[k].phase.Showing?
    ensures Sound(states[n].out[k]) && Wired(states[n].out[k])
    ensures var o := states[n].out[k]; forall x, y :: On(o.at, x, y) ==> Exact(o, o.drawing, x, y)
  {
    RunSeen(states, steps, n);
    var s, o := states[n], states[n].out[k];
    assert Seen(o) && Kept(o, k, Now(s), s.lock, s.unsaid);
    forall x, y | On(o.at, x, y) ensures Exact(o, o.drawing, x, y) {
      assert !BeingFilled(o, o.drawing, x, y);
    }
  }

  lemma ShownIsUp(states: seq<State>, steps: seq<Step>, n: nat)
    requires Run(states, steps) && n < |steps| && steps[n].Show? && steps[n].k < |states[n].out|
    ensures var t := steps[n]; var s, z := states[n], states[n + 1];
            && |z.out| == |s.out| && |s.out[t.k].buf| == 2 && s.out[t.k].drawing < 2 && s.out[t.k].phase.Showing?
            && PutsUp(s.out[t.k], z.out[t.k], t.moded, t.flipped, s.out[t.k].buf[s.out[t.k].drawing].view)
            && Lags(s.out[t.k], z.out[t.k], t.pushed)
  {
    var t, s := steps[n], states[n];
    var o := s.out[t.k];
    ShowingIs(states, steps, n, t.k);
    UpAtOnce(o, t.moded, t.flipped, t.pushed);
    ShownLags(o, t.moded, t.flipped, t.pushed);
    var m := s.(out := s.out[t.k := Shown(o, t.moded, t.flipped, t.pushed)]);
    if Apply(s, t) != m {
      TriedIsUp(o, m, t.k, t.a, t.flipped, t.pushed, o.buf[o.drawing].view);
    }
  }

  /** A display whose thread waits with nothing to do shows the present if no such
      flip is outstanding, but where a driver that copies was told of a change in
      vain. If one is, the buffer scanned is not the front one, and the panel is
      an instant before. */
  lemma IdleShowsThePresent(states: seq<State>, steps: seq<Step>, n: nat, k: nat, x: int, y: int)
    requires Run(states, steps) && n < |states| && k < |states[n].out|
    requires states[n].out[k].phase.Waiting? && !states[n].out[k].dirty && states[n].unsaid == iset{}
    requires Lit(states[n].out[k]) && On(states[n].out[k].at, x, y)
    ensures var s := states[n]; var o := s.out[k];
            && |o.buf| == 2 && o.glass.scan < 2
            && (Late(o) <==> o.glass.scan != o.front)
            && (!Late(o) && (o.glass.live || (x, y) !in o.glass.lag) ==> Panel(o)(x, y) == Frame(o.at, Now(s), x, y))
            && (Late(o) ==> Panel(o)(x, y) == Frame(o.at, OnGlass(o), x, y) && Past(states, n, OnGlass(o)))
  {
    RunSeen(states, steps, n);
    OnScreenIsPast(states, steps, n, k);
    IdleHasThePresent(states, steps, n, k, x, y);
    var o := states[n].out[k];
    assert Seen(o);
    if !Torn(o, x, y) {
      PanelIsOnGlass(o, x, y);
    }
    if !Late(o) && !o.glass.live && (x, y) !in o.glass.lag {
      assert CopyAt(o, x, y);
    }
  }
}
