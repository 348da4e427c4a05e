/** A run in which a flip is not done within half a second (engine/kms.c:808-827,
    905-912): the panel of an idle display shows an old frame, and the next frame
    is drawn into the buffer on the screen. */
module TearingRun {
  import opened Rects
  import opened Regions
  import opened Desktop
  import opened Presenter
  import opened PresenterSafety
  import opened Panels

  const WHITE := Pixel(0, 255, 255, 255)

  /** One display, three pixels wide and one high, that flips and is scanned out
      of its buffers. */
  const AT := Place(0, 0, 3, 1)
  const LEFT := Rect(0, 0, 1, 1)
  const RIGHT := Rect(2, 0, 3, 1)

  /** There is no cursor plane to ask anything of. */
  const NONE_ASKED := Answers(false, false, {})

  ghost const TOUCHED: iset<(int, int)> := iset{(0, 0), (2, 0)}

  function Before(x: int, y: int): Pixel {
    BLACK
  }

  function After(x: int, y: int): Pixel {
    if (x, y) == (0, 0) || (x, y) == (2, 0) then WHITE else BLACK
  }

  /** The desktop, of this display's size, with no pointer on it. */
  ghost function Seat(px: Image): Source {
    Source(px, true, 3, 1, 0, 0)
  }

  ghost function First(): State {
    var p := Pointer(Before, false, 0, 0, 0, 0, false, 0, 0, 0);
    var v := View(Seat(Before), p, false);
    var b := Buffer(Before, [Whole(AT)], NOWHERE, false, v);
    State([Output(AT, false, 0, 0, false, false, Plane(false, Before, 0, 0, false, false), [b, b], 0, false, true, true, Waiting, 0, false, false,
                  Glass(true, 0, NoFlight, 0, Before, v, iset{}))],
          Seat(Before), p, Free, iset{})
  }

  lemma Areas()
    ensures AddTo([], Whole(AT)) == [Whole(AT)] && AddTo([Whole(AT)], NOWHERE) == [Whole(AT)]
    ensures AddTo([Whole(AT)], LEFT) == AddTo([Whole(AT)], RIGHT) == [Whole(AT)]
    ensures AddTo([], LEFT) == [LEFT] && AddTo([LEFT], RIGHT) == [LEFT, RIGHT]
    ensures AddTo([LEFT, RIGHT], RIGHT) == [LEFT, RIGHT] && AddTo([LEFT, RIGHT], NOWHERE) == [LEFT, RIGHT]
  {
    assert Without([Whole(AT)], 0) == [];
    assert Without([LEFT, RIGHT], 1) == [LEFT];
    assert Absorb([LEFT], RIGHT) == ([LEFT], RIGHT);
    assert Absorb([LEFT, RIGHT], RIGHT) == ([LEFT], RIGHT);
  }

  /** Nothing in the run makes the two pixels differ on the desktop. */
  ghost predicate Even(s: State) {
    |s.out| == 1 && s.out[0].at == AT && !s.ptr.visible && s.src == Seat(s.src.px) && s.src.px(0, 0) == s.src.px(2, 0)
  }

  /** What is to be known of a state of the run: drawn[0] and drawn[1] are the two
      pixels in buffer 0. */
  datatype Moment = Moment(
    px: Image, lock: Holder, unsaid: iset<(int, int)>, shown: bool, front: nat, scan: nat, flight: Flight,
    dirty: bool, pending: bool, phase: Phase, drawing: nat, damage: (seq<Rect>, seq<Rect>), drawn: (Pixel, Pixel))

  ghost predicate Holds(s: State, m: Moment) {
    && Even(s) && Shape(s) && s.src.px == m.px && s.lock == m.lock && s.unsaid == m.unsaid && s.ptr.pout == 0
    && Display(s.out[0], m)
  }

  ghost predicate Display(o: Output, m: Moment) {
    && |o.buf| == 2 && !o.fbdev && o.flips && !o.stuck && !o.hw && !o.onHw && o.glass.live
    && o.shown == m.shown && o.front == m.front && o.glass.scan == m.scan && o.glass.flight == m.flight
    && o.dirty == m.dirty && o.pending == m.pending && o.phase == m.phase && o.drawing == m.drawing
    && o.buf[0].damage == m.damage.0 && o.buf[1].damage == m.damage.1
    && o.buf[0].pointer == NOWHERE && o.buf[1].pointer == NOWHERE
    && o.buf[0].px(0, 0) == m.drawn.0 && o.buf[0].px(2, 0) == m.drawn.1
  }

  ghost predicate Reaches(states: seq<State>, steps: seq<Step>, m: Moment) {
    && Run(states, steps) && Holds(states[|steps|], m)
    && forall i :: 0 <= i < |states| ==> Even(states[i])
  }

  lemma Then(states: seq<State>, steps: seq<Step>, t: Step, z: State, m: Moment)
    returns (states': seq<State>, steps': seq<Step>)
    requires Run(states, steps) && forall i :: 0 <= i < |states| ==> Even(states[i])
    requires Shape(states[|steps|]) && Enabled(states[|steps|], t) && z == Apply(states[|steps|], t) && Holds(z, m)
    ensures Reaches(states', steps', m)
  {
    states', steps' := states + [z], steps + [t];
    OneMoreStep(states, steps, t, z);
  }

  lemma ThenLock(states: seq<State>, steps: seq<Step>, m: Moment)
    returns (states': seq<State>, steps': seq<Step>, m': Moment)
    requires Reaches(states, steps, m) && m.lock.Free?
    ensures m' == m.(lock := Painter) && Reaches(states', steps', m')
  {
    var s := states[|steps|];
    m' := m.(lock := Painter);
    states', steps' := Then(states, steps, Lock, s.(lock := Painter), m');
  }

  lemma ThenPaint(states: seq<State>, steps: seq<Step>, m: Moment)
    returns (states': seq<State>, steps': seq<Step>, m': Moment)
    requires Reaches(states, steps, m) && m.lock.Painter? && m.px == Before && m.unsaid == iset{}
    ensures m' == m.(px := After, unsaid := TOUCHED) && Reaches(states', steps', m')
  {
    var s := states[|steps|];
    m' := m.(px := After, unsaid := TOUCHED);
    assert iset{} + TOUCHED == TOUCHED;
    states', steps' := Then(states, steps, Paint(After, TOUCHED), s.(src := s.src.(px := After), unsaid := TOUCHED), m');
  }

  /** FreeRDP declares one pixel of the three. */
  lemma ThenDamage(states: seq<State>, steps: seq<Step>, m: Moment, x: int, r: Rect)
    returns (states': seq<State>, steps': seq<Step>, m': Moment)
    requires Reaches(states, steps, m) && m.lock.Painter? && 0 <= x < 3 && r == Rect(x, 0, x + 1, 1)
    ensures m' == m.(unsaid := m.unsaid - iset{(x, 0)}, dirty := true,
                     damage := (AddTo(m.damage.0, r), AddTo(m.damage.1, r)))
    ensures Reaches(states', steps', m')
  {
    var s := states[|steps|];
    m' := m.(unsaid := m.unsaid - iset{(x, 0)}, dirty := true, damage := (AddTo(m.damage.0, r), AddTo(m.damage.1, r)));
    assert DamageRect(AT, s.src, x, 0, 1, 1) == r;
    assert Remaining(m.unsaid, x, 0, 1, 1) == m.unsaid - iset{(x, 0)};
    var z := s.(out := [Damaged(s.out[0], r)], unsaid := m.unsaid - iset{(x, 0)});
    assert Apply(s, Damage(x, 0, 1, 1)).out == z.out;
    states', steps' := Then(states, steps, Damage(x, 0, 1, 1), z, m');
  }

  lemma ThenUnlock(states: seq<State>, steps: seq<Step>, m: Moment)
    returns (states': seq<State>, steps': seq<Step>, m': Moment)
    requires Reaches(states, steps, m) && m.lock.Painter? && m.unsaid == iset{}
    ensures m' == m.(lock := Free) && Reaches(states', steps', m')
  {
    var s := states[|steps|];
    m' := m.(lock := Free);
    states', steps' := Then(states, steps, Unlock, s.(lock := Free), m');
  }

  /** The display's thread wakes and takes what there is to do. */
  lemma ThenTake(states: seq<State>, steps: seq<Step>, m: Moment)
    returns (states': seq<State>, steps': seq<Step>, m': Moment)
    requires Reaches(states, steps, m) && m.lock.Free? && m.phase.Waiting? && m.dirty && m.front < 2
    ensures var i := if m.shown then 1 - m.front else m.front;
            var todo := AddTo(if i == 0 then m.damage.0 else m.damage.1, NOWHERE);
            m' == m.(lock := Thread(0), dirty := false, phase := Filling(todo, 0), drawing := i,
                     damage := if i == 0 then ([], m.damage.1) else (m.damage.0, []))
    ensures Reaches(states', steps', m')
  {
    var s := states[|steps|];
    var o := s.out[0];
    var woken := s.(out := [o.(phase := Woken, dirty := false)]);
    assert s.out[0 := woken.out[0]] == woken.out;
    states', steps' := Then(states, steps, Wake(0), woken, m.(phase := Woken, dirty := false));
    var i := if m.shown then 1 - m.front else m.front;
    m' := m.(lock := Thread(0), dirty := false,
             phase := Filling(AddTo(if i == 0 then m.damage.0 else m.damage.1, NOWHERE), 0), drawing := i,
             damage := if i == 0 then ([], m.damage.1) else (m.damage.0, []));
    states', steps' := ThenTaken(states', steps', m.(phase := Woken, dirty := false), m');
  }

  lemma ThenTaken(states: seq<State>, steps: seq<Step>, m: Moment, m': Moment)
    returns (states': seq<State>, steps': seq<Step>)
    requires Reaches(states, steps, m) && m.lock.Free? && m.phase.Woken? && m.front < 2
    requires var i := if m.shown then 1 - m.front else m.front;
             m' == m.(lock := Thread(0),
                      phase := Filling(AddTo(if i == 0 then m.damage.0 else m.damage.1, NOWHERE), 0), drawing := i,
                      damage := if i == 0 then ([], m.damage.1) else (m.damage.0, []))
    ensures Reaches(states', steps', m')
  {
    var s := states[|steps|];
    var z := s.(out := [Taken(s.out[0])], lock := Thread(0));
    assert s.out[0 := z.out[0]] == z.out;
    states', steps' := Then(states, steps, Take(0), z, m');
  }

  lemma Fills(o: Output, s: Source, m: Moment, m': Moment)
    requires o.at == AT && s == Seat(m.px) && Display(o, m)
    requires m.drawing < 2 && m.phase.Filling? && m.phase.done < |m.phase.todo|
    requires var r := m.phase.todo[m.phase.done];
             m' == m.(phase := m.phase.(done := m.phase.done + 1),
                      drawn := (if m.drawing == 0 && Has(r, 0, 0) then m.px(0, 0) else m.drawn.0,
                                if m.drawing == 0 && Has(r, 2, 0) then m.px(2, 0) else m.drawn.1))
    ensures Display(Filled(o, s), m') && Filled(o, s).at == AT
  {
    assert Desk(AT, s, 0, 0) == s.px(0, 0) && Desk(AT, s, 2, 0) == s.px(2, 0);
  }

  lemma ThenFill(states: seq<State>, steps: seq<Step>, m: Moment)
    returns (states': seq<State>, steps': seq<Step>, m': Moment)
    requires Reaches(states, steps, m) && m.phase.Filling? && m.phase.done < |m.phase.todo| && m.drawing < 2
    ensures var r := m.phase.todo[m.phase.done];
            m' == m.(phase := m.phase.(done := m.phase.done + 1),
                     drawn := (if m.drawing == 0 && Has(r, 0, 0) then m.px(0, 0) else m.drawn.0,
                               if m.drawing == 0 && Has(r, 2, 0) then m.px(2, 0) else m.drawn.1))
    ensures Reaches(states', steps', m')
  {
    var s := states[|steps|];
    var r := m.phase.todo[m.phase.done];
    m' := m.(phase := m.phase.(done := m.phase.done + 1),
             drawn := (if m.drawing == 0 && Has(r, 0, 0) then m.px(0, 0) else m.drawn.0,
                       if m.drawing == 0 && Has(r, 2, 0) then m.px(2, 0) else m.drawn.1));
    var z := s.(out := [Filled(s.out[0], s.src)]);
    Fills(s.out[0], s.src, m, m');
    assert s.out[0 := z.out[0]] == z.out;
    states', steps' := Then(states, steps, Fill(0), z, m');
  }

  lemma ThenDraw(states: seq<State>, steps: seq<Step>, m: Moment)
    returns (states': seq<State>, steps': seq<Step>, m': Moment)
    requires Reaches(states, steps, m) && m.phase.Filling? && m.phase.done == |m.phase.todo| && m.drawing < 2
    ensures m' == m.(lock := Free, phase := Showing(AddTo(m.phase.todo, NOWHERE)))
    ensures Reaches(states', steps', m')
  {
    var s := states[|steps|];
    m' := m.(lock := Free, phase := Showing(AddTo(m.phase.todo, NOWHERE)));
    var z := s.(out := [Drawn(s.out[0], Now(s))], lock := Free);
    assert s.out[0 := z.out[0]] == z.out;
    assert PointerRect(AT, s.ptr, Soft(s.out, s.ptr)) == NOWHERE;
    states', steps' := Then(states, steps, Draw(0), z, m');
  }

  /** The first frame, shown by a mode set. */
  lemma ThenMode(states: seq<State>, steps: seq<Step>, m: Moment)
    returns (states': seq<State>, steps': seq<Step>, m': Moment)
    requires Reaches(states, steps, m) && m.phase.Showing? && !m.shown && m.drawing < 2
    ensures m' == m.(phase := Waiting, shown := true, front := m.drawing, scan := m.drawing, flight := NoFlight)
    ensures Reaches(states', steps', m')
  {
    var s := states[|steps|];
    m' := m.(phase := Waiting, shown := true, front := m.drawing, scan := m.drawing, flight := NoFlight);
    var z := s.(out := [Shown(s.out[0], true, false, false)]);
    assert s.out[0 := z.out[0]] == z.out;
    states', steps' := Then(states, steps, Show(0, true, false, false, NONE_ASKED), z, m');
  }

  lemma ThenQueue(states: seq<State>, steps: seq<Step>, m: Moment)
    returns (states': seq<State>, steps': seq<Step>, m': Moment)
    requires Reaches(states, steps, m) && m.phase.Showing? && m.shown && m.drawing < 2 && m.flight.NoFlight?
    ensures m' == m.(phase := Flipping, flight := Flight(m.drawing), pending := true)
    ensures Reaches(states', steps', m')
  {
    var s := states[|steps|];
    m' := m.(phase := Flipping, flight := Flight(m.drawing), pending := true);
    var z := s.(out := [Shown(s.out[0], false, true, false)]);
    assert s.out[0 := z.out[0]] == z.out;
    states', steps' := Then(states, steps, Show(0, false, true, false, NONE_ASKED), z, m');
  }

  lemma ThenTimeOut(states: seq<State>, steps: seq<Step>, m: Moment)
    returns (states': seq<State>, steps': seq<Step>, m': Moment)
    requires Reaches(states, steps, m) && m.phase.Flipping? && m.pending && m.drawing < 2
    ensures m' == m.(phase := Waiting, front := m.drawing, pending := false)
    ensures Reaches(states', steps', m')
  {
    var s := states[|steps|];
    m' := m.(phase := Waiting, front := m.drawing, pending := false);
    var z := s.(out := [Waited(s.out[0])]);
    assert s.out[0 := z.out[0]] == z.out;
    states', steps' := Then(states, steps, TimedOut(0), z, m');
  }

  // ── The run ────────────────────────────────────────────────────────────────

  lemma FirstArea()
    ensures AddTo([], Whole(AT)) == [Whole(AT)]
  {
    assert Absorb([], Whole(AT)) == ([], Whole(AT));
  }

  lemma FirstStarts()
    ensures Start(First())
  {
    FirstArea();
    var o := First().out[0];
    assert o.buf == [o.buf[0], o.buf[0]] && DamagedAll(o) == o;
    assert OutputAt(First().out, 0, 0) == 0;
  }

  lemma OneState(s: State)
    requires Start(s)
    ensures Run([s], [])
  {}

  lemma Begins() returns (m: Moment)
    ensures Reaches([First()], [], m)
    ensures m == Moment(Before, Free, iset{}, false, 0, 0, NoFlight, true, false, Waiting, 0,
                        ([Whole(AT)], [Whole(AT)]), (BLACK, BLACK))
  {
    FirstStarts();
    OneState(First());
    m := Moment(Before, Free, iset{}, false, 0, 0, NoFlight, true, false, Waiting, 0,
                ([Whole(AT)], [Whole(AT)]), (BLACK, BLACK));
  }

  lemma FirstFrame() returns (states: seq<State>, steps: seq<Step>, m: Moment)
    ensures Reaches(states, steps, m)
    ensures m == Moment(Before, Free, iset{}, true, 0, 0, NoFlight, false, false, Waiting, 0,
                        ([], [Whole(AT)]), (BLACK, BLACK))
  {
    Areas();
    states, steps := [First()], [];
    m := Begins();
    states, steps, m := ThenTake(states, steps, m);
    states, steps, m := ThenFill(states, steps, m);
    states, steps, m := ThenDraw(states, steps, m);
    states, steps, m := ThenMode(states, steps, m);
  }

  /** FreeRDP whitens both pixels, and says so. */
  lemma Painting() returns (states: seq<State>, steps: seq<Step>, m: Moment)
    ensures Reaches(states, steps, m)
    ensures m == Moment(After, Painter, TOUCHED, true, 0, 0, NoFlight, false, false, Waiting, 0,
                        ([], [Whole(AT)]), (BLACK, BLACK))
  {
    states, steps, m := FirstFrame();
    states, steps, m := ThenLock(states, steps, m);
    states, steps, m := ThenPaint(states, steps, m);
  }

  lemma Painted() returns (states: seq<State>, steps: seq<Step>, m: Moment)
    ensures Reaches(states, steps, m)
    ensures m == Moment(After, Free, iset{}, true, 0, 0, NoFlight, true, false, Waiting, 0,
                        ([LEFT, RIGHT], [Whole(AT)]), (BLACK, BLACK))
  {
    Areas();
    states, steps, m := Painting();
    states, steps, m := ThenDamage(states, steps, m, 0, LEFT);
    assert m.damage == ([LEFT], [Whole(AT)]);
    states, steps, m := ThenDamage(states, steps, m, 2, RIGHT);
    assert m.damage == ([LEFT, RIGHT], [Whole(AT)]);
    assert m.unsaid == iset{};
    states, steps, m := ThenUnlock(states, steps, m);
  }

  lemma FlipTimesOut() returns (states: seq<State>, steps: seq<Step>, m: Moment)
    ensures Reaches(states, steps, m)
    ensures m == Moment(After, Free, iset{}, true, 1, 0, Flight(1), false, false, Waiting, 1,
                        ([LEFT, RIGHT], []), (BLACK, BLACK))
  {
    Areas();
    states, steps, m := Painted();
    states, steps, m := ThenTake(states, steps, m);
    states, steps, m := ThenFill(states, steps, m);
    states, steps, m := ThenDraw(states, steps, m);
    states, steps, m := ThenQueue(states, steps, m);
    states, steps, m := ThenTimeOut(states, steps, m);
  }

  /** The display has nothing to do, and its panel is not the present. */
  lemma StalePanel() returns (states: seq<State>, steps: seq<Step>)
    ensures Run(states, steps) && |states[|steps|].out| == 1 && states[|steps|].unsaid == iset{}
    ensures var o := states[|steps|].out[0];
            && Lit(o) && o.flips && !o.fbdev && Late(o) && o.phase.Waiting? && !o.dirty
            && |o.buf| == 2 && o.glass.scan < 2
            && On(o.at, 0, 0) && Panel(o)(0, 0) != Frame(o.at, Now(states[|steps|]), 0, 0)
  {
    var m;
    states, steps, m := FlipTimesOut();
  }

  lemma EvenFrame(s: State)
    requires Even(s)
    ensures Frame(AT, Now(s), 0, 0) == Frame(AT, Now(s), 2, 0)
  {}

  /** The next frame is half copied into the buffer being scanned: the panel shows
      a frame of no instant there ever was. */
  lemma TornPanel() returns (states: seq<State>, steps: seq<Step>)
    ensures Run(states, steps) && |states[|steps|].out| == 1
    ensures var o := states[|steps|].out[0];
            && Lit(o) && o.flips && !o.fbdev && Late(o) && o.phase.Filling?
            && |o.buf| == 2 && o.glass.scan < 2
            && forall i :: 0 <= i < |states| ==>
                 exists x, y :: On(o.at, x, y) && Panel(o)(x, y) != Frame(o.at, Now(states[i]), x, y)
  {
    Areas();
    var m;
    states, steps, m := FlipTimesOut();
    states, steps, m := ThenLock(states, steps, m);
    states, steps, m := ThenDamage(states, steps, m, 2, RIGHT);
    assert m.unsaid == iset{};
    states, steps, m := ThenUnlock(states, steps, m);
    states, steps, m := ThenTake(states, steps, m);
    states, steps, m := ThenFill(states, steps, m);
    var o := states[|steps|].out[0];
    assert Panel(o)(0, 0) == WHITE && Panel(o)(2, 0) == BLACK && On(o.at, 0, 0) && On(o.at, 2, 0);
    forall i | 0 <= i < |states|
      ensures exists x, y :: On(o.at, x, y) && Panel(o)(x, y) != Frame(o.at, Now(states[i]), x, y)
    {
      EvenFrame(states[i]);
    }
  }
}
