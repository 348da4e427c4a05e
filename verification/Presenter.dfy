/** Presenting the desktop on several displays (engine/kms.c:704-1144): FreeRDP
    painting, the pointer moving and one thread per display, interleaved at
    their critical sections.

    A step is what runs between taking and releasing a lock: the source lock is
    a holder in the state, held over several steps; kms.mu is held for the
    length of one. What the kernel answers (a mode set, a page flip, a cursor
    plane, a dirty rectangle) is part of the step, chosen freely; a page flip it
    has accepted reaches the screen in a step of its own, at any time or never,
    and the event that says so is delivered in another. */
module Presenter {
  import opened Rects
  import opened Regions
  import opened Desktop

  /** used: drawn into at least once; view is the instant drawn last. */
  datatype Buffer = Buffer(px: Image, damage: seq<Rect>, pointer: Rect, used: bool, view: View)

  /** The flip the kernel has accepted and not done. */
  datatype Flight = NoFlight | Flight(i: nat)

  /** Where a display's thread is in present(). */
  datatype Phase =
    | Waiting                               // on its condition variable
    | Woken                                 // dirty cleared, about to lock the source
    | Filling(todo: seq<Rect>, done: nat)   // copying, the source locked
    | Showing(drawn: seq<Rect>)             // drawn, the source released
    | Flipping                              // in wait_flip

  /** A cursor plane: whether it shows a pointer, and its image and place. Of the
      calls whose answers nobody looks at: astray, the last move failed; left, the
      pointer was to be taken off and was not. */
  datatype Plane = Plane(held: bool, img: Image, x: int, y: int, astray: bool, left: bool)

  /** What the kernel answers the calls of the cursor planes: whether one takes an
      image, and a place, and which displays' let go of the pointer. */
  datatype Answers = Answers(taken: bool, moved: bool, hides: set<nat>)

  datatype Output = Output(
    at: Place, fbdev: bool, capW: int, capH: int,
    hw: bool, onHw: bool, plane: Plane,
    buf: seq<Buffer>, front: nat, shown: bool, flips: bool, dirty: bool,
    phase: Phase, drawing: nat, pending: bool,
    stuck: bool,       // a flip failed and so did the mode set meant to replace it
    glass: Glass)

  /** What the kernel and the hardware hold, which the program does not see. */
  datatype Glass = Glass(
    live: bool,            // the panel is the buffer scanned, not a copy the driver makes
    scan: nat,             // the buffer the CRTC scans out
    flight: Flight,
    events: nat,           // flips done whose events have not been read
    panel: Image,          // where the driver copies: the copy,
    onScreen: View,        // the instant of the frame copied last,
    lag: iset<(int, int)>) // and the pixels of it the driver was told of in vain

  datatype Holder = Free | Painter | Thread(k: nat)

  /** unsaid: points of the source FreeRDP has changed in the frame it is
      painting and not yet declared with kms_damage. */
  datatype State = State(
    out: seq<Output>, src: Source, ptr: Pointer, lock: Holder, unsaid: iset<(int, int)>)

  // ── Helpers of the source, on values ───────────────────────────────────────

  /** sw_pointer. */
  predicate Soft(out: seq<Output>, p: Pointer) {
    p.visible && p.loaded && !(0 <= p.pout < |out| && out[p.pout].onHw)
  }

  ghost function Now(s: State): View {
    View(s.src, s.ptr, Soft(s.out, s.ptr))
  }

  /** output_at, from display i on. */
  function OutputFrom(out: seq<Output>, x: int, y: int, i: nat): (r: int)
    requires i <= |out|
    ensures -1 <= r < |out|
    decreases |out| - i
  {
    if i == |out| then -1
    else if On(out[i].at, x - out[i].at.x, y - out[i].at.y) then i
    else OutputFrom(out, x, y, i + 1)
  }

  function OutputAt(out: seq<Output>, x: int, y: int): int {
    OutputFrom(out, x, y, 0)
  }

  /** fits_hw. */
  predicate FitsHw(o: Output, p: Pointer) {
    o.hw && p.loaded && p.iw <= o.capW && p.ih <= o.capH
  }

  /** The image as the plane has it, clear where the pointer's does not reach. */
  function PlaneImage(img: Image, w: int, h: int): Image {
    (x, y) => if 0 <= x < w && 0 <= y < h then img(x, y) else BLACK
  }

  function SetCursor(pl: Plane, img: Image, w: int, h: int): Plane {
    pl.(held := true, img := PlaneImage(img, w, h), left := false)
  }

  function MoveCursor(pl: Plane, x: int, y: int, works: bool): Plane {
    if works then pl.(x := x, y := y, astray := false) else pl.(astray := true)
  }

  function ClearCursor(pl: Plane, works: bool): Plane {
    if works then pl.(held := false, left := false) else pl.(left := true)
  }

  /** hide_hw. */
  function HideHw(o: Output, works: bool): Output {
    o.(onHw := false, plane := if o.onHw then ClearCursor(o.plane, works) else o.plane)
  }

  function MoveHw(o: Output, p: Pointer, works: bool): Output {
    o.(plane := MoveCursor(o.plane, p.px - p.hx - o.at.x, p.py - p.hy - o.at.y, works))
  }

  /** hw_cursor, and what place_pointer does where the plane refuses. */
  function TakeHw(o: Output, p: Pointer, a: Answers, i: nat): Output {
    if a.taken then MoveHw(o.(onHw := true, plane := SetCursor(o.plane, p.img, p.iw, p.ih)), p, a.moved)
    else HideHw(o.(hw := false), i in a.hides)
  }

  /** place_pointer, on the display the hot spot is on. */
  function PlaceOn(o: Output, p: Pointer, image: bool, a: Answers, i: nat): (r: Output)
    ensures r == o.(hw := r.hw, onHw := r.onHw, plane := r.plane)
    ensures (r.hw ==> o.hw) && ((o.onHw ==> o.hw) ==> (r.onHw ==> r.hw))
  {
    if !p.visible || !o.shown || !FitsHw(o, p) then HideHw(o, i in a.hides)
    else if o.onHw && !image then MoveHw(o, p, a.moved)
    else TakeHw(o, p, a, i)
  }

  function HideAll(out: seq<Output>, a: Answers): (r: seq<Output>)
    ensures |r| == |out| && forall k :: 0 <= k < |out| ==> r[k] == HideHw(out[k], k in a.hides)
  {
    seq(|out|, i requires 0 <= i < |out| => HideHw(out[i], i in a.hides))
  }

  function PlacePointer(out: seq<Output>, p: Pointer, image: bool, a: Answers): (r: (seq<Output>, Pointer))
    requires 0 <= p.pout < |out|
    ensures |r.0| == |out| && 0 <= r.1.pout < |out|
  {
    var found := OutputAt(out, p.px, p.py);
    var at := if found < 0 then p.pout else found;
    (seq(|out|, i requires 0 <= i < |out| =>
       if i == at then PlaceOn(out[i], p, image, a, i) else HideHw(out[i], i in a.hides)),
     p.(pout := at))
  }

  /** sw_changed: before is where the software pointer was. */
  function SwChanged(before: seq<Output>, p: Pointer, out: seq<Output>, q: Pointer): (r: seq<Output>)
    requires |before| == |out|
    ensures |r| == |out|
  {
    seq(|out|, i requires 0 <= i < |out| =>
      if Empty(PointerRect(before[i].at, p, Soft(before, p))) && Empty(PointerRect(out[i].at, q, Soft(out, q)))
      then out[i] else out[i].(dirty := true))
  }

  /** damage_all, for one display. */
  function DamagedAll(o: Output): Output
    requires |o.buf| == 2
  {
    var g := AddTo([], Whole(o.at));
    o.(buf := [o.buf[0].(damage := g), o.buf[1].(damage := g)], dirty := true)
  }

  /** kms_damage's rectangle on one display. */
  function DamageRect(o: Place, s: Source, x: int, y: int, w: int, h: int): Rect {
    var r := Rect(s.ox + x, s.oy + y, s.ox + x + w, s.oy + y + h);
    Clip(Move(r, -o.x, -o.y), Whole(o))
  }

  function Damaged(o: Output, v: Rect): Output
    requires |o.buf| == 2
  {
    if Empty(v) then o
    else o.(buf := [o.buf[0].(damage := AddTo(o.buf[0].damage, v)),
                    o.buf[1].(damage := AddTo(o.buf[1].damage, v))], dirty := true)
  }

  /** The buffer a thread draws into. */
  function Target(o: Output): nat {
    if o.shown && o.flips then 1 - Min(o.front, 1) else o.front
  }

  function Cast16(n: int): int {
    n % 0x1_0000
  }

  /** The rectangle DirtyFB is told of. */
  function ClipOf(r: Rect): Rect {
    Rect(Cast16(r.x0), Cast16(r.y0), Cast16(r.x1), Cast16(r.y1))
  }

  /** What DirtyFB does to the panel: the first eighteen rectangles drawn. */
  ghost function Pushed(panel: Image, px: Image, drawn: seq<Rect>): Image {
    var clips := seq(Min(|drawn|, REGION_RECTS + 2), i requires 0 <= i < |drawn| => ClipOf(drawn[i]));
    (x, y) => if Covers(clips, x, y) then px(x, y) else panel(x, y)
  }

  // ── The steps ──────────────────────────────────────────────────────────────

  datatype Step =
    | Lock                                           // sc_begin_paint, sc_desktop_resize
    | Paint(px: Image, touched: iset<(int, int)>)    // FreeRDP draws
    | Damage(x: int, y: int, w: int, h: int)         // kms_damage
    | Switch(px: Image, present: bool, w: int, h: int, ox: int, oy: int)  // kms_source
    | Unlock                                         // sc_end_paint
    | CursorSet(img: Image, w: int, h: int, hx: int, hy: int, a: Answers)
    | CursorHide(a: Answers)
    | CursorMove(x: int, y: int, a: Answers)
    | Wake(k: nat)
    | Take(k: nat)
    | Fill(k: nat)
    | Draw(k: nat)
    | Show(k: nat, moded: bool, flipped: bool, pushed: bool, a: Answers)
    | Flipped(k: nat)    // the kernel does the flip
    | Event(k: nat)      // the events thread runs flip_done
    | Arrived(k: nat)    // wait_flip finds nothing pending
    | TimedOut(k: nat)   // wait_flip gives up

  ghost predicate Enabled(s: State, t: Step) {
    match t
    case Lock => s.lock.Free?
    case Paint(px, touched) =>
      && s.lock.Painter?
      && forall x, y :: (x, y) !in touched ==> px(x, y) == s.src.px(x, y)
    case Damage(_, _, _, _) => s.lock.Painter?
    case Switch(_, _, _, _, _, _) => s.lock.Painter?
    case Unlock => s.lock.Painter? && s.unsaid == iset{}
    case CursorSet(_, w, h, _, _, _) => w > 0 && h > 0
    case CursorHide(_) => true
    case CursorMove(_, _, _) => true
    case Wake(k) => k < |s.out| && s.out[k].phase.Waiting? && s.out[k].dirty
    case Take(k) => k < |s.out| && s.out[k].phase.Woken? && s.lock.Free?
    case Fill(k) => k < |s.out| && s.out[k].phase.Filling? && s.out[k].phase.done < |s.out[k].phase.todo|
    case Draw(k) => k < |s.out| && s.out[k].phase.Filling? && s.out[k].phase.done == |s.out[k].phase.todo|
    // The kernel takes one flip at a time.
    case Show(k, _, flipped, _, _) =>
      k < |s.out| && s.out[k].phase.Showing? && (flipped ==> s.out[k].glass.flight.NoFlight?)
    case Flipped(k) => k < |s.out| && s.out[k].glass.flight.Flight?
    case Event(k) => k < |s.out| && s.out[k].glass.events > 0
    case Arrived(k) => k < |s.out| && s.out[k].phase.Flipping? && !s.out[k].pending
    case TimedOut(k) => k < |s.out| && s.out[k].phase.Flipping? && s.out[k].pending
  }

  /** A step of display t.k's thread, or of the kernel for it, that ends in no
      other display. */
  predicate OwnStep(t: Step) {
    t.Wake? || t.Take? || t.Fill? || t.Draw? || t.Flipped? || t.Event? || t.Arrived? || t.TimedOut?
  }

  /** The shape every state has: two buffers a display, indexes in range. */
  ghost predicate Shape(s: State) {
    && 0 <= s.ptr.pout < |s.out|
    && forall k :: 0 <= k < |s.out| ==> 
         && |s.out[k].buf| == 2 && s.out[k].front < 2 && s.out[k].drawing < 2
         && (s.out[k].glass.flight.Flight? ==> s.out[k].glass.flight.i < 2)
  }

  function Taken(o: Output): Output
    requires |o.buf| == 2 && o.front < 2
  {
    var i := Target(o);
    var b := o.buf[i];
    o.(buf := o.buf[i := b.(damage := [])],
       drawing := i,
       phase := Filling(AddTo(b.damage, b.pointer), 0))
  }

  ghost function Filled(o: Output, s: Source): Output
    requires |o.buf| == 2 && o.drawing < 2
    requires o.phase.Filling? && o.phase.done < |o.phase.todo|
  {
    var b := o.buf[o.drawing];
    var r := o.phase.todo[o.phase.done];
    var px := (x, y) => if Has(r, x, y) then Desk(o.at, s, x, y) else b.px(x, y);
    o.(buf := o.buf[o.drawing := b.(px := px)], phase := o.phase.(done := o.phase.done + 1))
  }

  ghost function Drawn(o: Output, v: View): Output
    requires |o.buf| == 2 && o.drawing < 2 && o.phase.Filling?
  {
    var b := o.buf[o.drawing];
    var r := PointerRect(o.at, v.ptr, v.soft);
    var px := (x, y) => if Has(r, x, y) then Frame(o.at, v, x, y) else b.px(x, y);
    o.(buf := o.buf[o.drawing := b.(px := px, pointer := r, used := true, view := v)],
       phase := Showing(AddTo(o.phase.todo, r)))
  }

  /** Buffer i comes to be scanned out, and copied where the driver copies. */
  ghost function Scanned(g: Glass, i: nat, b: Buffer): Glass {
    Glass(g.live, i, g.flight, g.events, b.px, b.view, iset{})
  }

  /** The kernel does the flip it has accepted. */
  ghost function FlipDone(g: Glass, buf: seq<Buffer>): Glass
    requires g.flight.Flight? && g.flight.i < |buf|
  {
    Scanned(g, g.flight.i, buf[g.flight.i]).(flight := NoFlight, events := g.events + 1)
  }

  /** A mode set that works shows buffer i at once, after any flip in flight. */
  ghost function ModeSet(g: Glass, i: nat, b: Buffer): Glass {
    Scanned(g, i, b).(flight := NoFlight, events := g.events + if g.flight.Flight? then 1 else 0)
  }

  ghost function Covered(g: seq<Rect>): iset<(int, int)> {
    iset p: (int, int) | Covers(g, p.0, p.1)
  }

  /** DirtyFB, whose answer nobody looks at. */
  ghost function Told(g: Glass, i: nat, b: Buffer, drawn: seq<Rect>, pushed: bool): Glass {
    if pushed && g.scan == i then
      g.(panel := Pushed(g.panel, b.px, drawn), onScreen := b.view, lag := g.lag - Covered(drawn))
    else g.(onScreen := b.view, lag := g.lag + Covered(drawn))
  }

  /** show, but for the wait for a flip and the pointer's move to the cursor
      plane. */
  ghost function Shown(o: Output, moded: bool, flipped: bool, pushed: bool): Output
    requires |o.buf| == 2 && o.drawing < 2 && o.phase.Showing?
  {
    var i, b := o.drawing, o.buf[o.drawing];
    if o.fbdev then o.(phase := Waiting, shown := true)
    else if !o.shown then
      if moded then o.(phase := Waiting, shown := true, front := i, glass := ModeSet(o.glass, i, b))
      else o.(phase := Waiting)
    else if o.flips then
      if flipped then o.(phase := Flipping, pending := true, glass := o.glass.(flight := Flight(i)))
      else if moded then
        o.(phase := Waiting, pending := false, flips := false, front := i, glass := ModeSet(o.glass, i, b))
      else o.(phase := Waiting, pending := false, flips := false, front := i, stuck := true)
    else o.(phase := Waiting, glass := Told(o.glass, i, b, o.phase.drawn, pushed))
  }

  /** wait_flip is over: the flip's event has come, or one before it has, or half
      a second has passed. */
  function Waited(o: Output): Output {
    o.(phase := Waiting, front := o.drawing, pending := false)
  }

  function AllDirty(out: seq<Output>): (r: seq<Output>)
    ensures |r| == |out|
  {
    seq(|out|, i requires 0 <= i < |out| => out[i].(dirty := true))
  }

  /** The pointer tried on the cursor plane of display k, once that has a mode. */
  ghost function PlaneStep(s: State, k: nat, a: Answers): State
    requires s.ptr.pout == k < |s.out|
  {
    var (placed, ptr) := PlacePointer(s.out, s.ptr, true, a);
    s.(ptr := ptr, out := if placed[k].onHw then AllDirty(placed) else placed)
  }

  ghost function ShowStep(s: State, k: nat, moded: bool, flipped: bool, pushed: bool, a: Answers): State
    requires Shape(s) && k < |s.out| && s.out[k].phase.Showing?
  {
    var o := s.out[k];
    var z := s.(out := s.out[k := Shown(o, moded, flipped, pushed)]);
    if !o.fbdev && !o.shown && moded && s.ptr.pout == k && s.ptr.visible && !o.onHw && FitsHw(o, s.ptr) then
      PlaneStep(z, k, a)
    else z
  }

  /** The points a call of kms_damage leaves undeclared. */
  ghost function Remaining(u: iset<(int, int)>, x: int, y: int, w: int, h: int): iset<(int, int)> {
    iset p | p in u && !Has(Rect(x, y, x + w, y + h), p.0, p.1)
  }

  ghost function Apply(s: State, t: Step): State
    requires Shape(s) && Enabled(s, t)
  {
    match t
    case Lock => s.(lock := Painter)
    case Paint(px, touched) => s.(src := s.src.(px := px), unsaid := s.unsaid + touched)
    case Damage(x, y, w, h) =>
      s.(out := seq(|s.out|, i requires 0 <= i < |s.out| && |s.out[i].buf| == 2 =>
                  Damaged(s.out[i], DamageRect(s.out[i].at, s.src, x, y, w, h))),
         unsaid := Remaining(s.unsaid, x, y, w, h))
    case Switch(px, present, w, h, ox, oy) =>
      s.(out := seq(|s.out|, i requires 0 <= i < |s.out| && |s.out[i].buf| == 2 => DamagedAll(s.out[i])),
         src := Source(px, present, w, h, ox, oy),
         unsaid := iset{})
    case Unlock => s.(lock := Free)
    case CursorSet(img, w, h, hx, hy, a) =>
      var p := s.ptr.(img := img, loaded := true, iw := w, ih := h, hx := hx, hy := hy, visible := true);
      var (out, q) := PlacePointer(s.out, p, true, a);
      s.(out := SwChanged(s.out, s.ptr, out, q), ptr := q)
    case CursorHide(a) =>
      var q := s.ptr.(visible := false);
      var out := HideAll(s.out, a);
      s.(out := SwChanged(s.out, s.ptr, out, q), ptr := q)
    case CursorMove(x, y, a) =>
      var p := s.ptr.(px := x, py := y);
      var (out, q) := PlacePointer(s.out, p, false, a);
      s.(out := SwChanged(s.out, s.ptr, out, q), ptr := q)
    case Wake(k) => s.(out := s.out[k := s.out[k].(phase := Woken, dirty := false)])
    case Take(k) => s.(out := s.out[k := Taken(s.out[k])], lock := Thread(k))
    case Fill(k) => s.(out := s.out[k := Filled(s.out[k], s.src)])
    case Draw(k) => s.(out := s.out[k := Drawn(s.out[k], Now(s))], lock := Free)
    case Show(k, moded, flipped, pushed, a) => ShowStep(s, k, moded, flipped, pushed, a)
    case Flipped(k) =>
      var o := s.out[k];
      s.(out := s.out[k := o.(glass := FlipDone(o.glass, o.buf))])
    case Event(k) =>
      var o := s.out[k];
      s.(out := s.out[k := o.(pending := false, glass := o.glass.(events := o.glass.events - 1))])
    case Arrived(k) => s.(out := s.out[k := Waited(s.out[k])])
    case TimedOut(k) => s.(out := s.out[k := Waited(s.out[k])])
  }

  // ── What every state keeps ─────────────────────────────────────────────────

  /** A pixel of display o that FreeRDP has changed and not declared. */
  predicate Unsaid(s: Source, u: iset<(int, int)>, o: Place, x: int, y: int) {
    (x + o.x - s.ox, y + o.y - s.oy) in u
  }

  /** Buffer j of o shows the desktop at (x, y), or knows that it does not. */
  ghost predicate Coherent(o: Output, j: nat, s: Source, u: iset<(int, int)>, x: int, y: int)
    requires j < |o.buf|
  {
    || Covers(o.buf[j].damage, x, y)
    || Has(o.buf[j].pointer, x, y)
    || o.buf[j].px(x, y) == Desk(o.at, s, x, y)
    || Unsaid(s, u, o.at, x, y)
  }

  /** While it is being filled: what is not to be filled still is right. */
  ghost predicate Progress(o: Output, s: Source, x: int, y: int)
    requires o.phase.Filling? && o.phase.done <= |o.phase.todo| && o.drawing < |o.buf|
  {
    || Covers(o.phase.todo[o.phase.done..], x, y)
    || o.buf[o.drawing].px(x, y) == Desk(o.at, s, x, y)
  }

  ghost predicate Same(o: Output, j: nat, v: View, u: iset<(int, int)>, x: int, y: int)
    requires j < |o.buf|
  {
    o.buf[j].px(x, y) == Frame(o.at, v, x, y) || Unsaid(v.src, u, o.at, x, y)
  }

  /** Buffer j holds exactly the frame of view v. */
  ghost predicate Fresh(o: Output, j: nat, v: View, u: iset<(int, int)>)
    requires j < |o.buf|
  {
    && o.buf[j].damage == []
    && forall x, y :: On(o.at, x, y) ==> Same(o, j, v, u, x, y)
  }

  ghost predicate Sound(o: Output) {
    && 0 < o.at.w < 0x1_0000 && 0 < o.at.h < 0x1_0000
    && |o.buf| == 2 && o.front < 2 && o.drawing < 2
    && (o.fbdev ==> o.front == 0 && !o.flips && !o.hw)
    && (o.onHw ==> o.hw)
    && (forall j :: 0 <= j < 2 ==>
          && Apart(o.buf[j].damage) && Within(o.buf[j].damage, Whole(o.at))
          && (Empty(o.buf[j].pointer) || Inside(o.buf[j].pointer, Whole(o.at))))
    && match o.phase
       case Filling(todo, done) =>
         && done <= |todo| && o.drawing == Target(o) && o.buf[o.drawing].damage == []
         && Apart(todo) && Within(todo, Whole(o.at))
       case Showing(drawn) =>
         && o.drawing == Target(o) && Apart(drawn) && Within(drawn, Whole(o.at))
       case Flipping => o.drawing == Target(o) && !o.fbdev
       case _ => true
  }

  /** What is kept of one display, as the rest of the state has it. */
  ghost predicate Kept(o: Output, k: nat, v: View, lock: Holder, u: iset<(int, int)>) {
    && Sound(o)
    && (o.phase.Filling? <==> lock == Thread(k))
    && (forall j, x, y :: 0 <= j < 2 && On(o.at, x, y) && !(o.phase.Filling? && j == o.drawing) ==>
          Coherent(o, j, v.src, u, x, y))
    && (o.phase.Filling? ==> forall x, y :: On(o.at, x, y) ==> Progress(o, v.src, x, y))
    && (o.phase.Showing? || o.phase.Flipping? ==> o.dirty || Fresh(o, o.drawing, v, u))
    && (o.phase.Waiting? ==> o.dirty || Fresh(o, o.front, v, u))
    && (o.glass.flight.Flight? ==> o.glass.flight.i < 2)
  }

  ghost predicate Inv(s: State) {
    && 0 <= s.ptr.pout < |s.out|
    && (s.lock.Thread? ==> s.lock.k < |s.out|)
    && (s.unsaid != iset{} ==> s.lock.Painter?)
    && OutputAt(s.out, s.ptr.px, s.ptr.py) in {-1, s.ptr.pout}
    && (forall k :: 0 <= k < |s.out| && s.out[k].onHw ==> k == s.ptr.pout)
    && (forall k :: 0 <= k < |s.out| ==> Kept(s.out[k], k, Now(s), s.lock, s.unsaid))
  }

  /** The state kms_start leaves: both buffers of every display damaged all
      over, whatever is in them, and a frame asked for. */
  ghost predicate Start(s: State) {
    && 0 <= s.ptr.pout < |s.out|
    && OutputAt(s.out, s.ptr.px, s.ptr.py) in {-1, s.ptr.pout}
    && s.lock.Free? && s.unsaid == iset{}
    && forall k :: 0 <= k < |s.out| ==>
         var o := s.out[k];
         && 0 < o.at.w < 0x1_0000 && 0 < o.at.h < 0x1_0000
         && |o.buf| == 2 && o.front == 0 && o.drawing == 0
         && (o.fbdev ==> !o.flips && !o.hw)
         && o.phase.Waiting? && !o.shown && !o.onHw && !o.plane.held && !o.plane.left
         && (o.fbdev ==> o.glass.live && o.glass.scan == 0) && o.glass.scan < 2
         && o.glass.flight.NoFlight? && o.glass.events == 0 && o.glass.lag == iset{} && !o.pending && !o.stuck
         && (forall j :: 0 <= j < 2 ==> !o.buf[j].used)
         && (forall j :: 0 <= j < 2 ==> o.buf[j].pointer == NOWHERE)
         && DamagedAll(o) == o
  }
}
