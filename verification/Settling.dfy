/** That presenting comes to an end (engine/kms.c:808-980): left alone by FreeRDP
    and the pointer, the threads and the kernel have only so many steps to do,
    whatever order they come in and whatever the kernel answers, and do not stop
    before every display shows the present. */
module Settling {
  import opened Rects
  import opened Regions
  import opened Desktop
  import opened Presenter
  import opened PresenterSafety
  import opened Panels

  /** A step of a thread or of the kernel. */
  predicate Machine(t: Step) {
    OwnStep(t) || t.Show?
  }

  predicate Idle(o: Output) {
    o.phase.Waiting? && !o.dirty
  }

  // ── How much there is to do ────────────────────────────────────────────────

  const FRAME: nat := REGION_RECTS + 7

  function InPhase(p: Phase): nat {
    match p
    case Waiting => 0
    case Flipping => 1
    case Showing(_) => 4
    case Filling(todo, done) => if done < |todo| then 5 + |todo| - done else 5
    case Woken => 6 + REGION_RECTS
  }

  /** Steps display o has before it, each frame asked for being one. */
  function ToDo(o: Output): nat {
    InPhase(o.phase) + (if o.dirty then FRAME else 0) + (if o.glass.flight.Flight? then 2 else 0) + o.glass.events
  }

  function AllToDo(out: seq<Output>): nat {
    if out == [] then 0 else ToDo(out[0]) + AllToDo(out[1..])
  }

  /** Displays without a mode, each of which may have the pointer go to its plane
      and so a frame drawn of all. */
  function Unshown(out: seq<Output>): (r: nat)
    ensures r <= |out|
  {
    if out == [] then 0 else (if out[0].shown then 0 else 1) + Unshown(out[1..])
  }

  /** For each of u such displays a frame of each of n, and one step. */
  function Frames(u: nat, n: nat): nat {
    if u == 0 then 0 else Frames(u - 1, n) + FRAME * n + 1
  }

  function Left(s: State): nat {
    Frames(Unshown(s.out), |s.out|) + AllToDo(s.out)
  }

  lemma {:induction false} OneChanges(out: seq<Output>, k: nat, o: Output)
    requires k < |out|
    ensures AllToDo(out[k := o]) == AllToDo(out) - ToDo(out[k]) + ToDo(o)
    ensures Unshown(out[k := o]) == Unshown(out) - (if out[k].shown then 0 else 1) + (if o.shown then 0 else 1)
    decreases k
  {
    if k == 0 {
      assert out[0 := o][1..] == out[1..];
    } else {
      OneChanges(out[1..], k - 1, o);
      assert out[k := o][1..] == out[1..][k - 1 := o];
    }
  }

  /** A frame more, at most, for every display. */
  lemma {:induction false} AFrameMore(out: seq<Output>, z: seq<Output>)
    requires |z| == |out|
    requires forall k :: 0 <= k < |out| ==> ToDo(z[k]) <= ToDo(out[k]) + FRAME && z[k].shown == out[k].shown
    ensures AllToDo(z) <= AllToDo(out) + FRAME * |out|
    ensures Unshown(z) == Unshown(out)
  {
    if out != [] {
      AFrameMore(out[1..], z[1..]);
    }
  }

  // ── Each step is one less ──────────────────────────────────────────────────

  lemma OneLess(s: State, k: nat, z: State)
    requires k < |s.out| && |z.out| == |s.out| && z.out == s.out[k := z.out[k]]
    requires ToDo(z.out[k]) < ToDo(s.out[k]) && z.out[k].shown == s.out[k].shown
    ensures Left(z) < Left(s)
  {
    OneChanges(s.out, k, z.out[k]);
  }

  lemma OwnDoes(s: State, t: Step)
    requires Shape(s) && Enabled(s, t) && OwnStep(t) && !t.Take?
    ensures var z := Apply(s, t);
            z.out == s.out[t.k := z.out[t.k]] && ToDo(z.out[t.k]) < ToDo(s.out[t.k]) && z.out[t.k].shown == s.out[t.k].shown
  {}

  lemma TakeDoes(s: State, k: nat)
    requires Shape(s) && Enabled(s, Take(k)) && Sound(s.out[k])
    ensures var z := Apply(s, Take(k));
            z.out == s.out[k := z.out[k]] && ToDo(z.out[k]) < ToDo(s.out[k]) && z.out[k].shown == s.out[k].shown
  {
    var b := s.out[k].buf[Target(s.out[k])];
    AddKeeps(b.damage, b.pointer, Whole(s.out[k].at));
  }

  lemma ShownIsLess(o: Output, moded: bool, flipped: bool, pushed: bool)
    requires |o.buf| == 2 && o.drawing < 2 && o.phase.Showing? && (flipped ==> o.glass.flight.NoFlight?)
    ensures var z := Shown(o, moded, flipped, pushed);
            && ToDo(z) < ToDo(o) && (o.shown ==> z.shown)
            && (z.shown != o.shown ==> o.fbdev || moded)
  {}

  lemma PlacedDoes(out: seq<Output>, p: Pointer, a: Answers, k: nat)
    requires 0 <= p.pout < |out| && k < |out|
    ensures var r := PlacePointer(out, p, true, a).0[k];
            ToDo(r) == ToDo(out[k]) && r.shown == out[k].shown
            && ToDo(r.(dirty := true)) <= ToDo(out[k]) + FRAME
  {
    var r := PlaceOn(out[k], p, true, a, k);
    assert r == out[k].(hw := r.hw, onHw := r.onHw, plane := r.plane);
    assert ToDo(r) == ToDo(out[k]) == ToDo(HideHw(out[k], k in a.hides));
  }

  lemma PlaneDoes(s: State, k: nat, a: Answers)
    requires s.ptr.pout == k < |s.out|
    ensures var z := PlaneStep(s, k, a).out;
            |z| == |s.out| && AllToDo(z) <= AllToDo(s.out) + FRAME * |s.out| && Unshown(z) == Unshown(s.out)
  {
    var z := PlaneStep(s, k, a).out;
    forall i | 0 <= i < |s.out| ensures ToDo(z[i]) <= ToDo(s.out[i]) + FRAME && z[i].shown == s.out[i].shown {
      PlacedDoes(s.out, s.ptr, a, i);
    }
    AFrameMore(s.out, z);
  }

  lemma ShownLeaves(s: State, k: nat, z: Output)
    requires k < |s.out| && ToDo(z) < ToDo(s.out[k]) && (s.out[k].shown ==> z.shown)
    ensures var out := s.out[k := z];
            && AllToDo(out) < AllToDo(s.out) && Left(s.(out := out)) < Left(s)
            && (z.shown && !s.out[k].shown ==> Unshown(out) + 1 == Unshown(s.out))
  {
    OneChanges(s.out, k, z);
  }

  lemma ShowIsLess(s: State, t: Step)
    requires Shape(s) && Enabled(s, t) && t.Show?
    ensures Left(Apply(s, t)) < Left(s)
  {
    var o, k := s.out[t.k], t.k;
    var m := s.(out := s.out[k := Shown(o, t.moded, t.flipped, t.pushed)]);
    ShownIsLess(o, t.moded, t.flipped, t.pushed);
    ShownLeaves(s, k, m.out[k]);
    if Apply(s, t) != m {
      TriedIsLess(s, m, k, t.a);
    }
  }

  lemma TriedIsLess(s: State, m: State, k: nat, a: Answers)
    requires |m.out| == |s.out| && m.ptr.pout == k < |s.out|
    requires AllToDo(m.out) < AllToDo(s.out) && Unshown(m.out) + 1 == Unshown(s.out)
    ensures Left(PlaneStep(m, k, a)) < Left(s)
  {
    PlaneDoes(m, k, a);
  }

  /** Every step of the threads and the kernel leaves less to do, however it is
      answered. */
  lemma MachineIsLess(s: State, t: Step)
    requires Inv(s) && Shape(s) && Enabled(s, t) && Machine(t)
    ensures Left(Apply(s, t)) < Left(s)
  {
    if t.Show? {
      ShowIsLess(s, t);
    } else {
      assert Kept(s.out[t.k], t.k, Now(s), s.lock, s.unsaid);
      if t.Take? {
        TakeDoes(s, t.k);
      } else {
        OwnDoes(s, t);
      }
      OneLess(s, t.k, Apply(s, t));
    }
  }

  /** So they come to an end: whatever they do and are answered, there are no more
      than so many steps before FreeRDP or the pointer has one. */
  lemma {:induction false} ComesToAnEnd(states: seq<State>, steps: seq<Step>, n: nat, m: nat)
    requires Run(states, steps) && n <= m < |states|
    requires forall i {:trigger steps[i]} :: n <= i < m ==> Machine(steps[i])
    ensures Left(states[m]) + m - n <= Left(states[n])
    decreases m
  {
    if n < m {
      ComesToAnEnd(states, steps, n, m - 1);
      RunKeeps(states, steps, m - 1);
      assert Machine(steps[m - 1]);
      MachineIsLess(states[m - 1], steps[m - 1]);
    }
  }

  // ── What is to be shown ────────────────────────────────────────────────────

  /** The source after n steps: as it was last given, with what was painted on it
      since. */
  ghost function SourceOf(src: Source, steps: seq<Step>, n: nat): Source
    requires n <= |steps|
  {
    if n == 0 then src
    else
      match steps[n - 1]
      case Paint(px, _) => SourceOf(src, steps, n - 1).(px := px)
      case Switch(px, present, w, h, ox, oy) => Source(px, present, w, h, ox, oy)
      case _ => SourceOf(src, steps, n - 1)
  }

  /** The pointer: as it was last loaded, where it was last moved, hidden or not. */
  ghost function PointerOf(p: Pointer, steps: seq<Step>, n: nat): Pointer
    requires n <= |steps|
  {
    if n == 0 then p
    else
      var q := PointerOf(p, steps, n - 1);
      match steps[n - 1]
      case CursorSet(img, w, h, hx, hy, _) => Pointer(img, true, w, h, hx, hy, true, q.px, q.py, q.pout)
      case CursorHide(_) => q.(visible := false)
      case CursorMove(x, y, _) => q.(px := x, py := y)
      case _ => q
  }

  /** The points of it changed and not declared since. */
  ghost function UnsaidOf(u: iset<(int, int)>, steps: seq<Step>, n: nat): iset<(int, int)>
    requires n <= |steps|
  {
    if n == 0 then u
    else
      var v := UnsaidOf(u, steps, n - 1);
      match steps[n - 1]
      case Paint(_, touched) => v + touched
      case Damage(x, y, w, h) => v - iset a, b | x <= a < x + w && y <= b < y + h :: (a, b)
      case Switch(_, _, _, _, _, _) => iset{}
      case _ => v
  }

  ghost predicate IsTold(z: State, src: Source, p: Pointer, u: iset<(int, int)>) {
    z.src == src && z.ptr == p.(pout := z.ptr.pout) && z.unsaid == u
  }

  lemma PlacedPointer(out: seq<Output>, p: Pointer, image: bool, a: Answers)
    requires 0 <= p.pout < |out|
    ensures var q := PlacePointer(out, p, image, a).1; q == p.(pout := q.pout)
  {}

  lemma ShowTells(s: State, t: Step)
    requires Shape(s) && Enabled(s, t) && t.Show?
    ensures IsTold(Apply(s, t), s.src, s.ptr, s.unsaid)
  {
    var m := s.(out := s.out[t.k := Shown(s.out[t.k], t.moded, t.flipped, t.pushed)]);
    if Apply(s, t) != m {
      PlacedPointer(m.out, m.ptr, true, t.a);
    }
  }

  lemma CursorTells(s: State, t: Step)
    requires Shape(s) && Enabled(s, t) && (t.CursorSet? || t.CursorHide? || t.CursorMove?)
    ensures var q := s.ptr;
            IsTold(Apply(s, t), s.src,
                   if t.CursorSet? then Pointer(t.img, true, t.w, t.h, t.hx, t.hy, true, q.px, q.py, q.pout)
                   else if t.CursorMove? then q.(px := t.x, py := t.y) else q.(visible := false), s.unsaid)
  {
    match t
    case CursorSet(img, w, h, hx, hy, a) =>
      PlacedPointer(s.out, s.ptr.(img := img, loaded := true, iw := w, ih := h, hx := hx, hy := hy, visible := true), true, a);
    case CursorHide(a) =>
    case CursorMove(x, y, a) =>
      PlacedPointer(s.out, s.ptr.(px := x, py := y), false, a);
  }

  lemma DamageTells(s: State, x: int, y: int, w: int, h: int)
    requires Shape(s) && Enabled(s, Damage(x, y, w, h))
    ensures IsTold(Apply(s, Damage(x, y, w, h)), s.src, s.ptr,
                   s.unsaid - iset a, b | x <= a < x + w && y <= b < y + h :: (a, b))
  {
    assert Remaining(s.unsaid, x, y, w, h) == s.unsaid - iset a, b | x <= a < x + w && y <= b < y + h :: (a, b);
  }

  /** Whatever the threads and the kernel do, what is to be shown is what FreeRDP and
      the pointer have last told. */
  lemma {:induction false} PresentIsAsTold(states: seq<State>, steps: seq<Step>, n: nat)
    requires Run(states, steps) && n < |states|
    ensures var s := states[0];
            IsTold(states[n], SourceOf(s.src, steps, n), PointerOf(s.ptr, steps, n), UnsaidOf(s.unsaid, steps, n))
  {
    if n > 0 {
      PresentIsAsTold(states, steps, n - 1);
      var s, t := states[n - 1], steps[n - 1];
      assert states[n] == Apply(s, t);
      if t.Show? {
        ShowTells(s, t);
      } else if t.CursorSet? || t.CursorHide? || t.CursorMove? {
        CursorTells(s, t);
      } else if t.Damage? {
        DamageTells(s, t.x, t.y, t.w, t.h);
      }
    }
  }

  // ── And the end is the present ─────────────────────────────────────────────

  lemma HolderSteps(s: State, k: nat)
    requires s.lock == Thread(k) && k < |s.out| && Sound(s.out[k]) && s.out[k].phase.Filling?
    ensures exists t :: Machine(t) && Enabled(s, t)
  {
    assert Enabled(s, Fill(k)) || Enabled(s, Draw(k));
  }

  lemma FreeSteps(s: State, k: nat)
    requires s.lock.Free? && k < |s.out| && !s.out[k].phase.Filling? && !Idle(s.out[k])
    ensures exists t :: Machine(t) && Enabled(s, t)
  {
    match s.out[k].phase
    case Waiting => assert Enabled(s, Wake(k));
    case Woken => assert Enabled(s, Take(k));
    case Showing(_) => assert Enabled(s, Show(k, false, false, false, Answers(false, false, {})));
    case Flipping => assert Enabled(s, Arrived(k)) || Enabled(s, TimedOut(k));
  }

  /** Nothing but FreeRDP keeps a thread from its next step: nobody waits for a lock
      that is not given back. */
  lemma NobodyIsStuck(s: State, k: nat)
    requires Inv(s) && !s.lock.Painter? && k < |s.out| && !Idle(s.out[k])
    ensures exists t :: Machine(t) && Enabled(s, t)
  {
    var j := if s.lock.Thread? then s.lock.k else k;
    assert Kept(s.out[j], j, Now(s), s.lock, s.unsaid);
    if s.lock.Thread? {
      HolderSteps(s, j);
    } else {
      FreeSteps(s, k);
    }
  }

  /** Nothing left to do: no thread and not the kernel has a step. */
  ghost predicate AtRest(s: State) {
    forall t :: Machine(t) ==> !Enabled(s, t)
  }

  /** At rest every display is idle and its panel is, to the pixel, the present
      desktop with the present pointer, but where a driver was told in vain or
      showing failed. */
  lemma AtRestIsThePresent(states: seq<State>, steps: seq<Step>, n: nat, k: nat, x: int, y: int)
    requires Run(states, steps) && n < |states| && AtRest(states[n]) && !states[n].lock.Painter?
    requires k < |states[n].out| && On(states[n].out[k].at, x, y)
    ensures var s := states[n]; var o := s.out[k];
            && Idle(o) && |o.buf| == 2 && o.glass.scan < 2
            && (Lit(o) && (o.glass.live || (x, y) !in o.glass.lag) ==> Panel(o)(x, y) == Frame(o.at, Now(s), x, y))
  {
    RunKeeps(states, steps, n);
    RunSeen(states, steps, n);
    var s := states[n];
    assert Seen(s.out[k]);
    if !Idle(s.out[k]) {
      NobodyIsStuck(s, k);
    }
    assert !Enabled(s, Flipped(k));
    if Lit(s.out[k]) {
      IdleShowsThePresent(states, steps, n, k, x, y);
    }
  }

  /** From anywhere FreeRDP has given the source back there is rest, no more than so
      many steps away. */
  lemma {:induction false} RestIsReached(states: seq<State>, steps: seq<Step>)
    returns (states': seq<State>, steps': seq<Step>)
    requires Run(states, steps) && !states[|steps|].lock.Painter?
    ensures Run(states', steps') && |steps| <= |steps'| <= |steps| + Left(states[|steps|])
    ensures states <= states' && steps <= steps'
    ensures forall i {:trigger steps'[i]} :: |steps| <= i < |steps'| ==> Machine(steps'[i])
    ensures AtRest(states'[|steps'|]) && !states'[|steps'|].lock.Painter?
    decreases Left(states[|steps|])
  {
    var s := states[|steps|];
    if AtRest(s) {
      states', steps' := states, steps;
    } else {
      var t :| Machine(t) && Enabled(s, t);
      RunKeeps(states, steps, |steps|);
      ShapeOf(s);
      MachineIsLess(s, t);
      var z := Apply(s, t);
      OneMoreStep(states, steps, t, z);
      states', steps' := RestIsReached(states + [z], steps + [t]);
      StepsOn(steps, t, steps');
    }
  }

  lemma StepsOn(steps: seq<Step>, t: Step, steps': seq<Step>)
    requires steps + [t] <= steps' && Machine(t)
    requires forall i {:trigger steps'[i]} :: |steps| + 1 <= i < |steps'| ==> Machine(steps'[i])
    ensures forall i {:trigger steps'[i]} :: |steps| <= i < |steps'| ==> Machine(steps'[i])
  {
    assert steps'[|steps|] == t;
  }

  lemma ShapeOf(s: State)
    requires Inv(s)
    ensures Shape(s)
  {
    forall k | 0 <= k < |s.out| ensures Kept(s.out[k], k, Now(s), s.lock, s.unsaid) {}
  }

  // ── Flips and their events ─────────────────────────────────────────────────

  /** The kernel accepts a flip of display k. */
  predicate Accepts(s: State, t: Step, k: nat) {
    t.Show? && t.k == k < |s.out| && !s.out[k].fbdev && s.out[k].shown && s.out[k].flips && t.flipped
  }

  function Accepted(states: seq<State>, steps: seq<Step>, n: nat, k: nat): nat
    requires n <= |steps| <= |states|
  {
    if n == 0 then 0 else Accepted(states, steps, n - 1, k) + if Accepts(states[n - 1], steps[n - 1], k) then 1 else 0
  }

  /** The events thread has run flip_done for it. */
  function Delivered(steps: seq<Step>, n: nat, k: nat): nat
    requires n <= |steps|
  {
    if n == 0 then 0 else Delivered(steps, n - 1, k) + if steps[n - 1] == Event(k) then 1 else 0
  }

  /** Flips of a display not done, and done without their events read. */
  function Underway(o: Output): nat {
    o.glass.events + if o.glass.flight.Flight? then 1 else 0
  }

  lemma PlacedGlass(out: seq<Output>, p: Pointer, image: bool, a: Answers, k: nat)
    requires 0 <= p.pout < |out| && k < |out|
    ensures PlacePointer(out, p, image, a).0[k].glass == out[k].glass
  {
    var r := PlaceOn(out[k], p, image, a, k);
    assert r.glass == out[k].glass == HideHw(out[k], k in a.hides).glass;
  }

  lemma ChangedGlass(before: seq<Output>, p: Pointer, out: seq<Output>, q: Pointer, k: nat)
    requires |before| == |out| && k < |out|
    ensures SwChanged(before, p, out, q)[k].glass == out[k].glass
  {}

  lemma PointerUnderway(s: State, t: Step, k: nat)
    requires Shape(s) && Enabled(s, t) && (t.CursorSet? || t.CursorHide? || t.CursorMove?) && k < |s.out|
    ensures |Apply(s, t).out| == |s.out| && Apply(s, t).out[k].glass == s.out[k].glass
  {
    match t
    case CursorSet(img, w, h, hx, hy, a) =>
      var p := s.ptr.(img := img, loaded := true, iw := w, ih := h, hx := hx, hy := hy, visible := true);
      var (out, q) := PlacePointer(s.out, p, true, a);
      PlacedGlass(s.out, p, true, a, k);
      ChangedGlass(s.out, s.ptr, out, q, k);
    case CursorHide(a) =>
      ChangedGlass(s.out, s.ptr, HideAll(s.out, a), s.ptr.(visible := false), k);
    case CursorMove(x, y, a) =>
      var p := s.ptr.(px := x, py := y);
      var (out, q) := PlacePointer(s.out, p, false, a);
      PlacedGlass(s.out, p, false, a, k);
      ChangedGlass(s.out, s.ptr, out, q, k);
  }

  lemma ShownFlips(o: Output, moded: bool, flipped: bool, pushed: bool)
    requires |o.buf| == 2 && o.drawing < 2 && o.phase.Showing? && (flipped ==> o.glass.flight.NoFlight?)
    ensures Underway(Shown(o, moded, flipped, pushed))
            == Underway(o) + if !o.fbdev && o.shown && o.flips && flipped then 1 else 0
  {}

  lemma TriedUnderway(m: State, j: nat, a: Answers, k: nat)
    requires m.ptr.pout == j < |m.out| && k < |m.out|
    ensures |PlaneStep(m, j, a).out| == |m.out| && Underway(PlaneStep(m, j, a).out[k]) == Underway(m.out[k])
  {
    PlacedGlass(m.out, m.ptr, true, a, k);
  }

  lemma ShownUnderway(s: State, t: Step, k: nat)
    requires Shape(s) && Enabled(s, t) && t.Show? && k < |s.out|
    ensures |Apply(s, t).out| == |s.out|
    ensures Underway(Apply(s, t).out[k]) == Underway(s.out[k]) + if Accepts(s, t, k) then 1 else 0
  {
    var m := s.(out := s.out[t.k := Shown(s.out[t.k], t.moded, t.flipped, t.pushed)]);
    ShownFlips(s.out[t.k], t.moded, t.flipped, t.pushed);
    assert k != t.k ==> m.out[k] == s.out[k];
    if Apply(s, t) != m {
      TriedUnderway(m, t.k, t.a, k);
    }
  }

  lemma OtherUnderway(s: State, t: Step, k: nat)
    requires Shape(s) && Enabled(s, t) && k < |s.out|
    requires !t.Show? && !t.CursorSet? && !t.CursorHide? && !t.CursorMove?
    ensures |Apply(s, t).out| == |s.out|
    ensures Underway(Apply(s, t).out[k]) == Underway(s.out[k]) - if t == Event(k) then 1 else 0
  {
    assert |s.out[k].buf| == 2;
  }

  /** Every flip accepted is not done yet, done with its event to come, or its event
      has come, and just one of these; a mode set makes no difference. */
  lemma {:induction false} FlipsAreAccounted(states: seq<State>, steps: seq<Step>, n: nat, k: nat)
    requires Run(states, steps) && n < |states| && k < |states[0].out|
    ensures |states[n].out| == |states[0].out|
    ensures Accepted(states, steps, n, k) == Delivered(steps, n, k) + Underway(states[n].out[k])
  {
    if n > 0 {
      FlipsAreAccounted(states, steps, n - 1, k);
      var s, t := states[n - 1], steps[n - 1];
      assert states[n] == Apply(s, t);
      if t.Show? {
        ShownUnderway(s, t, k);
      } else if t.CursorSet? || t.CursorHide? || t.CursorMove? {
        PointerUnderway(s, t, k);
      } else {
        OtherUnderway(s, t, k);
      }
    }
  }
}
