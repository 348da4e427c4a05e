/** A run in which the kernel does not let go of the pointer (engine/kms.c:838-843):
    nobody looks at its answer, and the pointer is seen twice. */
module PointerRun {
  import opened Rects
  import opened Regions
  import opened Desktop
  import opened Presenter
  import opened PresenterSafety

  /** Two displays side by side, a pixel each, with cursor planes. */
  const HERE := Place(0, 0, 1, 1)
  const THERE := Place(1, 0, 1, 1)
  const ALL := Rect(0, 0, 1, 1)

  const TAKES := Answers(true, true, {0, 1})
  const KEEPS := Answers(true, true, {})

  function Dark(x: int, y: int): Pixel {
    BLACK
  }

  ghost function Unlit(at: Place): Output {
    var v := View(Source(Dark, true, 2, 1, 0, 0), Pointer(Dark, false, 0, 0, 0, 0, false, 0, 0, 0), false);
    var b := Buffer(Dark, [ALL], NOWHERE, false, v);
    Output(at, false, 64, 64, true, false, Plane(false, Dark, 0, 0, false, false), [b, b], 0, false, true, true,
           Waiting, 0, false, false, Glass(true, 0, NoFlight, 0, Dark, v, iset{}))
  }

  ghost function First(): State {
    State([Unlit(HERE), Unlit(THERE)], Source(Dark, true, 2, 1, 0, 0), Pointer(Dark, false, 0, 0, 0, 0, false, 0, 0, 0),
          Free, iset{})
  }

  lemma Areas()
    ensures AddTo([], ALL) == [ALL] && AddTo([ALL], NOWHERE) == [ALL] && AddTo([ALL], ALL) == [ALL]
  {
    assert Absorb([], ALL) == ([], ALL);
    assert Without([ALL], 0) == [];
    assert Absorb([ALL], ALL) == ([], ALL);
  }

  lemma UnlitStarts(at: Place)
    requires at.w == 1 && at.h == 1
    ensures DamagedAll(Unlit(at)) == Unlit(at)
  {
    Areas();
    assert Whole(at) == ALL && Unlit(at).buf == [Unlit(at).buf[0], Unlit(at).buf[0]];
  }

  lemma FirstStarts()
    ensures Start(First())
  {
    UnlitStarts(HERE);
    UnlitStarts(THERE);
    assert OutputFrom(First().out, 0, 0, 0) == 0;
  }

  /** What is to be known of a state of the run: of the first display and of the
      pointer. */
  datatype Moment = Moment(loaded: bool, lock: Holder, phase: Phase, dirty: bool, shown: bool, onHw: bool)

  ghost predicate Holds(s: State, m: Moment) {
    && |s.out| == 2 && Shape(s) && s.lock == m.lock
    && s.ptr.pout == 0 && s.ptr.px == s.ptr.py == s.ptr.hx == s.ptr.hy == 0
    && s.ptr.loaded == s.ptr.visible == m.loaded && (m.loaded ==> s.ptr.iw == s.ptr.ih == 1)
    && Lit(s.out[0], m) && s.out[1].at == THERE && !s.out[1].shown && !s.out[1].onHw && !s.out[1].plane.held
  }

  ghost predicate Lit(o: Output, m: Moment) {
    && o.at == HERE && |o.buf| == 2 && !o.fbdev && o.hw && o.capW == o.capH == 64 && o.front == 0 && o.drawing == 0
    && o.phase == m.phase && o.dirty == m.dirty && o.shown == m.shown && o.onHw == m.onHw
    && o.plane.held == m.onHw && !o.plane.left && o.glass.flight.NoFlight?
    && (o.phase.Waiting? || o.phase.Woken? ==> !m.shown ==> o.buf[0].damage == [ALL] && o.buf[0].pointer == NOWHERE)
  }

  ghost predicate Reaches(states: seq<State>, steps: seq<Step>, m: Moment) {
    Run(states, steps) && Holds(states[|steps|], m)
  }

  lemma Then(states: seq<State>, steps: seq<Step>, t: Step, z: State)
    returns (states': seq<State>, steps': seq<Step>)
    requires Run(states, steps)
    requires Shape(states[|steps|]) && Enabled(states[|steps|], t) && z == Apply(states[|steps|], t)
    ensures Run(states', steps') && states'[|steps'|] == z
  {
    states', steps' := states + [z], steps + [t];
    OneMoreStep(states, steps, t, z);
  }

  lemma SetFirst(s: State)
    requires Holds(s, Moment(false, Free, Waiting, true, false, false))
    ensures Holds(Apply(s, CursorSet(Dark, 1, 1, 0, 0, TAKES)), Moment(true, Free, Waiting, true, false, false))
  {
    assert OutputFrom(s.out, 0, 0, 0) == 0;
    var p := s.ptr.(img := Dark, loaded := true, iw := 1, ih := 1, hx := 0, hy := 0, visible := true);
    var (out, q) := PlacePointer(s.out, p, true, TAKES);
    assert q == p && out[0] == s.out[0] && out[1] == s.out[1];
    SwChangedLeaves(s.out, s.ptr, out, q);
  }

  lemma TakeFirst(s: State)
    requires Holds(s, Moment(true, Free, Waiting, true, false, false))
    ensures var z := Apply(s, Wake(0));
            && Shape(z) && Enabled(z, Take(0))
            && Holds(Apply(z, Take(0)), Moment(true, Thread(0), Filling([ALL], 0), false, false, false))
  {
    Areas();
  }

  lemma FillFirst(s: State)
    requires Holds(s, Moment(true, Thread(0), Filling([ALL], 0), false, false, false))
    ensures Holds(Apply(s, Fill(0)), Moment(true, Thread(0), Filling([ALL], 1), false, false, false))
  {}

  lemma DrawFirst(s: State)
    requires Holds(s, Moment(true, Thread(0), Filling([ALL], 1), false, false, false))
    ensures Holds(Apply(s, Draw(0)), Moment(true, Free, Showing([ALL]), false, false, false))
  {
    Areas();
    assert PointerRect(HERE, s.ptr, Soft(s.out, s.ptr)) == ALL;
  }

  lemma ModeFirst(o: Output)
    requires Lit(o, Moment(true, Free, Showing([ALL]), false, false, false))
    ensures Lit(Shown(o, true, false, false), Moment(true, Free, Waiting, false, true, false))
  {}

  lemma ModedFirst(s: State, m: State)
    requires Holds(s, Moment(true, Free, Showing([ALL]), false, false, false))
    requires m == s.(out := s.out[0 := Shown(s.out[0], true, false, false)])
    ensures Holds(m, Moment(true, Free, Waiting, false, true, false))
  {
    ModeFirst(s.out[0]);
    assert m.out[1] == s.out[1] && |m.out| == 2;
  }

  lemma ThenTried(s: State, m: State)
    requires Shape(s) && |s.out| == 2 && s.out[0].phase.Showing? && !s.out[0].fbdev && !s.out[0].shown
    requires s.ptr.pout == 0 && s.ptr.visible && !s.out[0].onHw && FitsHw(s.out[0], s.ptr)
    requires m == s.(out := s.out[0 := Shown(s.out[0], true, false, false)])
    ensures Apply(s, Show(0, true, false, false, TAKES)) == PlaneStep(m, 0, TAKES)
  {}

  /** The display gets its mode, and its plane the pointer. */
  lemma ShowFirst(s: State)
    requires Holds(s, Moment(true, Free, Showing([ALL]), false, false, false))
    ensures Holds(Apply(s, Show(0, true, false, false, TAKES)), Moment(true, Free, Waiting, true, true, true))
  {
    var m := s.(out := s.out[0 := Shown(s.out[0], true, false, false)]);
    ModedFirst(s, m);
    TriedFirst(m);
    ThenTried(s, m);
  }

  lemma TriedFirst(m: State)
    requires Holds(m, Moment(true, Free, Waiting, false, true, false))
    ensures Holds(PlaneStep(m, 0, TAKES), Moment(true, Free, Waiting, true, true, true))
  {
    assert OutputFrom(m.out, 0, 0, 0) == 0;
  }

  /** The pointer goes to the display beside, which has no mode yet. */
  lemma MoveAway(s: State)
    requires Holds(s, Moment(true, Free, Waiting, true, true, true))
    ensures var z := Apply(s, CursorMove(1, 0, KEEPS));
            && |z.out| == 2 && z.ptr.pout == 1 && z.ptr.visible && z.ptr.loaded && Now(z).soft
            && z.out[0].plane.held && z.out[0].plane.left && !z.out[0].onHw
  {
    assert OutputFrom(s.out, 1, 0, 1) == 1;
    assert OutputFrom(s.out, 1, 0, 0) == 1;
  }

  /** The pointer is to be drawn into the frames of the display its hot spot is on,
      and the plane of the other still shows it. */
  lemma SeenTwice() returns (states: seq<State>, steps: seq<Step>)
    ensures Run(states, steps)
    ensures var s := states[|steps|];
            && |s.out| == 2 && s.ptr.pout == 1 && s.ptr.visible && s.ptr.loaded && Now(s).soft
            && s.out[0].plane.held && s.out[0].plane.left && !s.out[0].onHw
  {
    FirstStarts();
    states, steps := [First()], [];
    states, steps := Loaded(states, steps);
    states, steps := OnPlane(states, steps);
    var s := states[|steps|];
    MoveAway(s);
    states, steps := Then(states, steps, CursorMove(1, 0, KEEPS), Apply(s, CursorMove(1, 0, KEEPS)));
  }

  lemma Loaded(states: seq<State>, steps: seq<Step>) returns (states': seq<State>, steps': seq<Step>)
    requires Run(states, steps) && Holds(states[|steps|], Moment(false, Free, Waiting, true, false, false))
    ensures Run(states', steps')
    ensures Holds(states'[|steps'|], Moment(true, Thread(0), Filling([ALL], 0), false, false, false))
  {
    var s := states[|steps|];
    SetFirst(s);
    var t := CursorSet(Dark, 1, 1, 0, 0, TAKES);
    states', steps' := Then(states, steps, t, Apply(s, t));
    s := states'[|steps'|];
    TakeFirst(s);
    states', steps' := Then(states', steps', Wake(0), Apply(s, Wake(0)));
    s := states'[|steps'|];
    states', steps' := Then(states', steps', Take(0), Apply(s, Take(0)));
  }

  lemma OnPlane(states: seq<State>, steps: seq<Step>) returns (states': seq<State>, steps': seq<Step>)
    requires Run(states, steps) && Holds(states[|steps|], Moment(true, Thread(0), Filling([ALL], 0), false, false, false))
    ensures Run(states', steps') && Holds(states'[|steps'|], Moment(true, Free, Waiting, true, true, true))
  {
    var s := states[|steps|];
    FillFirst(s);
    states', steps' := Then(states, steps, Fill(0), Apply(s, Fill(0)));
    s := states'[|steps'|];
    DrawFirst(s);
    states', steps' := Then(states', steps', Draw(0), Apply(s, Draw(0)));
    s := states'[|steps'|];
    ShowFirst(s);
    var t := Show(0, true, false, false, TAKES);
    states', steps' := Then(states', steps', t, Apply(s, t));
  }
}
