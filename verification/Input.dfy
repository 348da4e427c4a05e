/** The kiosk's input on its way to the server (engine/sc-rdp.c:537-651): a
    burst of pointer moves goes as its last one. */
module Input {
  import opened Helpers
  import opened Lines

  /** A line as sscanf reads it: its first character and up to four numbers. */
  datatype Scanned = Scanned(c: char, n: int, p0: int, p1: int, p2: int, p3: int)

  type Scanner = seq<Byte> -> Scanned

  /** kms_clamp: where the pointer stays on a display. */
  type Clamp = (int, int) -> (int, int)

  /** What goes to the server; points are the screen's. */
  datatype Event =
    | Move(x: int, y: int)
    | Button(button: int, down: bool, x: int, y: int)
    | Extended(button: int, down: bool, x: int, y: int)
    | Notch(vertical: bool, forward: bool, x: int, y: int)
    | Key(down: bool, code: int, extended: int)

  predicate IsMove(l: Scanned) {
    l.c == 'm' && l.n == 2
  }

  function Repeat(e: Event, n: nat): seq<Event> {
    if n == 0 then [] else [e] + Repeat(e, n - 1)
  }

  /** What a line other than a move sends. */
  function Act(l: Scanned): seq<Event> {
    if l.c == 'b' && l.n >= 4 then
      if 1 <= l.p0 <= 3 then [Button(l.p0, l.p1 != 0, l.p2, l.p3)]
      else if l.p0 == 8 || l.p0 == 9 then [Extended(l.p0, l.p1 != 0, l.p2, l.p3)]
      else []
    else if (l.c == 'w' || l.c == 'h') && l.n >= 3 then
      Repeat(Notch(l.c == 'w', l.p0 > 0, l.p1, l.p2), if l.p0 > 0 then l.p0 else -l.p0)
    else if l.c == 'k' && l.n == 3 then [Key(l.p2 != 0, l.p0, l.p1)]
    else []
  }

  lemma {:induction false} RepeatIs(e: Event, n: nat)
    ensures |Repeat(e, n)| == n && forall i :: 0 <= i < n ==> Repeat(e, n)[i] == e
  {
    if n > 0 {
      RepeatIs(e, n - 1);
    }
  }

  /** A line that asks for something: it has all its numbers, and they name a
      button or count a notch. */
  predicate Asks(l: Scanned) {
    || (l.c == 'b' && l.n == 4 && l.p0 in {1, 2, 3, 8, 9})
    || (l.c in {'w', 'h'} && l.n >= 3 && l.p0 != 0)
    || (l.c == 'k' && l.n == 3)
  }

  /** An event that says what line l does. */
  predicate Says(l: Scanned, e: Event) {
    match e
    case Move(_, _) => false
    case Button(b, down, x, y) => l.c == 'b' && b == l.p0 <= 3 && (down <==> l.p1 != 0) && (x, y) == (l.p2, l.p3)
    case Extended(b, down, x, y) => l.c == 'b' && b == l.p0 >= 8 && (down <==> l.p1 != 0) && (x, y) == (l.p2, l.p3)
    case Notch(vertical, forward, x, y) =>
      (vertical <==> l.c == 'w') && (forward <==> l.p0 > 0) && l.c in {'w', 'h'} && (x, y) == (l.p1, l.p2)
    case Key(down, code, extended) => l.c == 'k' && (down <==> l.p2 != 0) && (code, extended) == (l.p0, l.p1)
  }

  /** A line that asks for nothing sends nothing; of another each event says what
      the line does, at the point the line names, and there is one, or one for
      each notch. sscanf gives four numbers at most. */
  lemma ActSays(l: Scanned)
    requires l.n <= 4
    ensures Act(l) != [] <==> Asks(l)
    ensures forall i :: 0 <= i < |Act(l)| ==> Says(l, Act(l)[i])
    ensures Asks(l) ==> |Act(l)| == if l.c in {'w', 'h'} then (if l.p0 > 0 then l.p0 else -l.p0) else 1
  {
    if l.c in {'w', 'h'} && l.n >= 3 {
      RepeatIs(Notch(l.c == 'w', l.p0 > 0, l.p1, l.p2), if l.p0 > 0 then l.p0 else -l.p0);
    }
  }

  /** All a line stands for, moves included. */
  function Meaning(l: Scanned, clamp: Clamp): seq<Event> {
    if IsMove(l) then var (x, y) := clamp(l.p0, l.p1); [Move(x, y)] else Act(l)
  }

  function MeaningOf(ls: seq<Scanned>, clamp: Clamp): seq<Event> {
    if ls == [] then [] else Meaning(ls[0], clamp) + MeaningOf(ls[1..], clamp)
  }

  /** Where the pipe's lines end: a NULL, or the line that says quit. */
  function Script(s: seq<Byte>, scan: Scanner): seq<Scanned>
    decreases |s|
  {
    NextIsShorter(s);
    match Next(s)
    case None => []
    case Some((line, rest)) =>
      if scan(line).c == 'q' then [scan(line)] else [scan(line)] + Script(rest, scan)
  }

  /** It has the scan of every line up to the first that says quit, and of all of
      them if none does. */
  lemma {:induction false} ScriptEnds(s: seq<Byte>, scan: Scanner) returns (lines: seq<seq<Byte>>, rest: seq<Byte>)
    ensures |Script(s, scan)| == |lines| && forall i :: 0 <= i < |lines| ==> Script(s, scan)[i] == scan(lines[i])
    ensures forall i :: 0 <= i < |lines| - 1 ==> scan(lines[i]).c != 'q'
    ensures (lines != [] && scan(lines[|lines| - 1]).c == 'q') || Next(rest).None?
    ensures Next(s).Some? ==> lines != [] && lines[0] == Next(s).value.0
    decreases |s|
  {
    NextIsShorter(s);
    match Next(s)
    case None => lines, rest := [], s;
    case Some((line, r)) =>
      lines, rest := [line], r;
      if scan(line).c != 'q' {
        var more;
        more, rest := ScriptEnds(r, scan);
        lines := [line] + more;
      }
  }

  lemma {:induction false} NextIsShorter(s: seq<Byte>)
    ensures Next(s).Some? ==> |Next(s).value.1| < |s|
    decreases |s|
  {
    if Find(s) >= SIZE {
      NextIsShorter(s[SIZE..]);
    }
  }

  /** sent is ls with some moves left out, each of them right before another
      move. */
  predicate Coalesced(ls: seq<Scanned>, clamp: Clamp, sent: seq<Event>)
    decreases |ls|
  {
    if ls == [] then sent == []
    else
      || (|ls| > 1 && IsMove(ls[0]) && IsMove(ls[1]) && Coalesced(ls[1..], clamp, sent))
      || (var m := Meaning(ls[0], clamp); m <= sent && Coalesced(ls[1..], clamp, sent[|m|..]))
  }

  // ── The kiosk's side ───────────────────────────────────────────────────────

  /** What the kiosk asks of the engine (internal/rdp/engine.go:347-378). */
  datatype Command =
    | SendKey(code: int, extended: bool, down: bool)
    | SendMouse(x: int, y: int)
    | SendMouseDown(button: int, x: int, y: int)
    | SendMouseUp(button: int, x: int, y: int)
    | SendWheel(notches: int, x: int, y: int)

  function B2i(b: bool): int {
    if b then 1 else 0
  }

  /** The line it writes, as sscanf reads it. */
  function Written(c: Command): Scanned {
    match c
    case SendKey(code, extended, down) => Scanned('k', 3, code, B2i(extended), B2i(down), 0)
    case SendMouse(x, y) => Scanned('m', 2, x, y, 0, 0)
    case SendMouseDown(button, x, y) => Scanned('b', 4, button, 1, x, y)
    case SendMouseUp(button, x, y) => Scanned('b', 4, button, 0, x, y)
    case SendWheel(notches, x, y) => Scanned('w', 3, notches, x, y, 0)
  }

  /** What is wanted of the server. */
  predicate Wanted(c: Command, clamp: Clamp, es: seq<Event>) {
    match c
    case SendKey(code, extended, down) => es == [Key(down, code, B2i(extended))]
    case SendMouse(x, y) => es == [Move(clamp(x, y).0, clamp(x, y).1)]
    case SendMouseDown(b, x, y) => es == [if b <= 3 then Button(b, true, x, y) else Extended(b, true, x, y)]
    case SendMouseUp(b, x, y) => es == [if b <= 3 then Button(b, false, x, y) else Extended(b, false, x, y)]
    case SendWheel(n, x, y) =>
      |es| == (if n > 0 then n else -n) && forall i :: 0 <= i < |es| ==> es[i] == Notch(true, n > 0, x, y)
  }

  /** The engine does what the kiosk asks, if and only if a button it names is one
      of the five there are. */
  lemma KioskIsUnderstood(c: Command, clamp: Clamp)
    ensures Wanted(c, clamp, Meaning(Written(c), clamp))
            <==> (c.SendMouseDown? || c.SendMouseUp? ==> c.button in {1, 2, 3, 8, 9})
  {
    if c.SendWheel? {
      RepeatIs(Notch(true, c.notches > 0, c.x, c.y), if c.notches > 0 then c.notches else -c.notches);
    }
  }

  // ── What the server makes of it ────────────────────────────────────────────

  /** An event other than a move, and where the last move before it left the
      pointer. */
  datatype Effect = Effect(e: Event, x: int, y: int)

  function Effects(es: seq<Event>, x: int, y: int): (seq<Effect>, int, int) {
    if es == [] then ([], x, y)
    else if es[0].Move? then Effects(es[1..], es[0].x, es[0].y)
    else
      var (r, u, v) := Effects(es[1..], x, y);
      ([Effect(es[0], x, y)] + r, u, v)
  }

  lemma {:induction false} EffectsOfBoth(a: seq<Event>, b: seq<Event>, x: int, y: int)
    ensures var (r1, x1, y1) := Effects(a, x, y);
            var (r2, x2, y2) := Effects(b, x1, y1);
            && Effects(a + b, x, y).0 == r1 + r2
            && (Effects(a + b, x, y).1, Effects(a + b, x, y).2) == (x2, y2)
  {
    if a == [] {
      assert a + b == b;
    } else {
      assert (a + b)[1..] == a[1..] + b;
      if a[0].Move? {
        EffectsOfBoth(a[1..], b, a[0].x, a[0].y);
      } else {
        EffectsOfBoth(a[1..], b, x, y);
      }
    }
  }

  /** A move right before another is without effect. */
  lemma MoveOverridden(ls: seq<Scanned>, clamp: Clamp, x: int, y: int)
    requires |ls| > 1 && IsMove(ls[0]) && IsMove(ls[1])
    ensures Effects(MeaningOf(ls, clamp), x, y) == Effects(MeaningOf(ls[1..], clamp), x, y)
  {
    var a, b := Meaning(ls[0], clamp), MeaningOf(ls[1..], clamp);
    var c := MeaningOf(ls[1..][1..], clamp);
    assert b == Meaning(ls[1], clamp) + c;
    assert (a + b)[1..] == b && b[0].Move?;
    assert b[1..] == c;
  }

  /** The server is shown every event but moves, in order, with the pointer where
      it was on the screen, and the pointer ends where it does on the screen. */
  lemma {:induction false} CoalescingKeepsTheMeaning(ls: seq<Scanned>, clamp: Clamp, sent: seq<Event>, x: int, y: int)
    requires Coalesced(ls, clamp, sent)
    ensures Effects(sent, x, y) == Effects(MeaningOf(ls, clamp), x, y)
    decreases |ls|
  {
    if ls != [] {
      if |ls| > 1 && IsMove(ls[0]) && IsMove(ls[1]) && Coalesced(ls[1..], clamp, sent) {
        MoveOverridden(ls, clamp, x, y);
        CoalescingKeepsTheMeaning(ls[1..], clamp, sent, x, y);
      } else {
        var m := Meaning(ls[0], clamp);
        var (_, u, v) := Effects(m, x, y);
        assert sent == m + sent[|m|..];
        CoalescingKeepsTheMeaning(ls[1..], clamp, sent[|m|..], u, v);
        EffectsOfBoth(m, sent[|m|..], x, y);
        EffectsOfBoth(m, MeaningOf(ls[1..], clamp), x, y);
      }
    }
  }

  /** No completed move is left unsent: the last line's event is sent. */
  lemma {:induction false} LastMoveIsSent(ls: seq<Scanned>, clamp: Clamp, sent: seq<Event>)
    requires Coalesced(ls, clamp, sent) && ls != [] && IsMove(ls[|ls| - 1])
    ensures sent != [] && sent[|sent| - 1] == Meaning(ls[|ls| - 1], clamp)[0]
    decreases |ls|
  {
    if |ls| > 1 {
      if IsMove(ls[0]) && IsMove(ls[1]) && Coalesced(ls[1..], clamp, sent) {
        LastMoveIsSent(ls[1..], clamp, sent);
      } else {
        LastMoveIsSent(ls[1..], clamp, sent[|Meaning(ls[0], clamp)|..]);
      }
    }
  }

  // ── The loop ───────────────────────────────────────────────────────────────

  predicate AllMoves(ls: seq<Scanned>) {
    forall i :: 0 <= i < |ls| ==> IsMove(ls[i])
  }

  lemma {:induction false} BurstCoalesces(burst: seq<Scanned>, clamp: Clamp)
    requires burst != [] && AllMoves(burst)
    ensures Coalesced(burst, clamp, Meaning(burst[|burst| - 1], clamp))
    decreases |burst|
  {
    if |burst| > 1 {
      BurstCoalesces(burst[1..], clamp);
    } else {
      assert Meaning(burst[0], clamp)[|Meaning(burst[0], clamp)|..] == [];
    }
  }

  /** More lines: a burst of moves sent as its last one, or any one line. */
  lemma {:induction false} CoalescedMore(ls: seq<Scanned>, clamp: Clamp, sent: seq<Event>, more: seq<Scanned>)
    requires Coalesced(ls, clamp, sent) && more != [] && (|more| > 1 ==> AllMoves(more))
    ensures Coalesced(ls + more, clamp, sent + Meaning(more[|more| - 1], clamp))
    decreases |ls|
  {
    var m := Meaning(more[|more| - 1], clamp);
    if ls == [] {
      assert ls + more == more && sent + m == m;
      LastIsSent(more, clamp);
    } else {
      assert (ls + more)[1..] == ls[1..] + more;
      if |ls| > 1 && IsMove(ls[0]) && IsMove(ls[1]) && Coalesced(ls[1..], clamp, sent) {
        CoalescedMore(ls[1..], clamp, sent, more);
      } else {
        var h := Meaning(ls[0], clamp);
        CoalescedMore(ls[1..], clamp, sent[|h|..], more);
        FirstIsSent(ls + more, clamp, sent + m) by {
          assert (sent + m)[|h|..] == sent[|h|..] + m;
        }
      }
    }
  }

  lemma FirstIsSent(ls: seq<Scanned>, clamp: Clamp, sent: seq<Event>)
    requires ls != [] && Meaning(ls[0], clamp) <= sent
    requires Coalesced(ls[1..], clamp, sent[|Meaning(ls[0], clamp)|..])
    ensures Coalesced(ls, clamp, sent)
  {}

  lemma LastIsSent(more: seq<Scanned>, clamp: Clamp)
    requires more != [] && (|more| > 1 ==> AllMoves(more))
    ensures Coalesced(more, clamp, Meaning(more[|more| - 1], clamp))
  {
    var m := Meaning(more[|more| - 1], clamp);
    if |more| > 1 {
      BurstCoalesces(more, clamp);
    } else {
      assert more[1..] == [] && m[|m|..] == [];
      FirstIsSent(more, clamp, m);
    }
  }

  /** Where input's loop is: the lines it has read have been sent, but for a
      burst of moves at their end, the last of which is at (mx, my). */
  ghost predicate Progress(done: seq<Scanned>, clamp: Clamp, sent: seq<Event>, moved: bool, mx: int, my: int) {
    if !moved then Coalesced(done, clamp, sent)
    else
      && done != [] && Meaning(done[|done| - 1], clamp) == [Move(mx, my)]
      && exists j :: 0 <= j < |done| && AllMoves(done[j..]) && Coalesced(done[..j], clamp, sent)
  }

  /** A move read: held back. */
  lemma Moved(done: seq<Scanned>, clamp: Clamp, sent: seq<Event>, moved: bool, mx: int, my: int, l: Scanned)
    requires Progress(done, clamp, sent, moved, mx, my) && IsMove(l)
    ensures var (x, y) := clamp(l.p0, l.p1); Progress(done + [l], clamp, sent, true, x, y)
  {
    var all := done + [l];
    if moved {
      var j :| 0 <= j < |done| && AllMoves(done[j..]) && Coalesced(done[..j], clamp, sent);
      assert all[j..] == done[j..] + [l] && all[..j] == done[..j];
      assert AllMoves(all[j..]);
    } else {
      assert all[|done|..] == [l] && all[..|done|] == done;
      assert AllMoves(all[|done|..]);
    }
  }

  /** What was held back is sent. */
  lemma Flushed(done: seq<Scanned>, clamp: Clamp, sent: seq<Event>, mx: int, my: int)
    requires Progress(done, clamp, sent, true, mx, my)
    ensures Coalesced(done, clamp, sent + [Move(mx, my)])
  {
    var j :| 0 <= j < |done| && AllMoves(done[j..]) && Coalesced(done[..j], clamp, sent);
    CoalescedMore(done[..j], clamp, sent, done[j..]);
    assert done[..j] + done[j..] == done;
    assert done[j..][|done[j..]| - 1] == done[|done| - 1];
  }

  /** wheel: one event a notch. */
  method Wheel(vertical: bool, notches: int, x: int, y: int) returns (sent: seq<Event>)
    ensures sent == Repeat(Notch(vertical, notches > 0, x, y), if notches > 0 then notches else -notches)
  {
    sent := [];
    var k := notches;
    while k > 0
      invariant notches <= 0 ==> k == notches && sent == []
      invariant notches > 0 ==>
                  && 0 <= k
                  && sent + Repeat(Notch(vertical, true, x, y), k) == Repeat(Notch(vertical, true, x, y), notches)
    {
      sent := sent + [Notch(vertical, true, x, y)];
      k := k - 1;
    }
    while k < 0
      invariant k <= 0
      invariant notches > 0 ==> k == 0 && sent == Repeat(Notch(vertical, true, x, y), notches)
      invariant notches <= 0 ==>
                  sent + Repeat(Notch(vertical, false, x, y), -k) == Repeat(Notch(vertical, false, x, y), -notches)
    {
      sent := sent + [Notch(vertical, false, x, y)];
      k := k + 1;
    }
  }

  /** The next line, scanned; done are the lines before it. */
  method NextScanned(r: Reader, scan: Scanner, ghost done: seq<Scanned>, ghost script: seq<Scanned>)
    returns (line: Option<Scanned>)
    requires r.Valid() && done + Script(r.Remaining(), scan) == script
    modifies r, r.buf
    ensures r.Valid()
    ensures line.None? ==> Next(old(r.Remaining())).None? && done == script
    ensures line.Some? ==>
              && |r.Remaining()| < |old(r.Remaining())|
              && done + [line.value] + (if line.value.c == 'q' then [] else Script(r.Remaining(), scan)) == script
  {
    ghost var was := r.Remaining();
    NextIsShorter(was);
    var bytes := r.NextLine();
    if bytes.None? {
      return None;
    }
    line := Some(scan(bytes.value));
    ghost var rest := if line.value.c == 'q' then [] else Script(r.Remaining(), scan);
    assert Script(was, scan) == [line.value] + rest;
    assert (done + [line.value]) + rest == done + ([line.value] + rest);
  }

  /** input, until the pipe ends or a line says quit: for every way the pipe may
      cut the stream up, the events sent are the lines' with only superseded
      moves left out. */
  method Run(r: Reader, scan: Scanner, clamp: Clamp, ghost script: seq<Scanned>) returns (sent: seq<Event>)
    requires r.Valid() && script == Script(r.Remaining(), scan)
    modifies r, r.buf
    ensures Coalesced(script, clamp, sent)
  {
    sent := [];
    var moved, mx, my := false, 0, 0;
    ghost var done: seq<Scanned> := [];
    assert done + script == script;
    while true
      invariant r.Valid()
      invariant done + Script(r.Remaining(), scan) == script
      invariant Progress(done, clamp, sent, moved, mx, my)
      invariant moved ==> Next(r.Remaining()).Some?
      decreases |r.Remaining()|
    {
      var line := NextScanned(r, scan, done, script);
      if line.None? {
        return;
      }
      var l := line.value;
      if IsMove(l) {
        Moved(done, clamp, sent, moved, mx, my, l);
        var (x, y) := clamp(l.p0, l.p1);
        mx, my, moved := x, y, true;
        done := done + [l];
        var ready := r.LineReady();
        if ready {
          continue;
        }
        Flushed(done, clamp, sent, mx, my);
        sent := sent + [Move(mx, my)];
        moved := false;
        continue;
      }
      if moved {
        Flushed(done, clamp, sent, mx, my);
        sent := sent + [Move(mx, my)];
        moved := false;
      }
      CoalescedMore(done, clamp, sent, [l]);
      var acts := Send(l);
      sent := sent + acts;
      done := done + [l];
      if l.c == 'q' {
        assert done + [] == done;
        return;
      }
    }
  }

  /** input's switch. */
  method Send(l: Scanned) returns (sent: seq<Event>)
    ensures sent == Act(l)
  {
    sent := [];
    if l.c == 'b' {
      if l.n >= 4 {
        if l.p0 == 1 || l.p0 == 2 || l.p0 == 3 {
          sent := [Button(l.p0, l.p1 != 0, l.p2, l.p3)];
        } else if l.p0 == 8 || l.p0 == 9 {
          sent := [Extended(l.p0, l.p1 != 0, l.p2, l.p3)];
        }
      }
    } else if l.c == 'w' || l.c == 'h' {
      if l.n >= 3 {
        sent := Wheel(l.c == 'w', l.p0, l.p1, l.p2);
      }
    } else if l.c == 'k' {
      if l.n == 3 {
        sent := [Key(l.p2 != 0, l.p0, l.p1)];
      }
    }
  }

  /** to_session: a point of the screen on a session of w x h at (ox, oy). */
  function ToSession(ox: int, oy: int, w: int, h: int, x: int, y: int): (int, int) {
    (if x - ox < 0 then 0 else if x - ox >= w then w - 1 else x - ox,
     if y - oy < 0 then 0 else if y - oy >= h then h - 1 else y - oy)
  }

  /** Every event is on the session, and no point of it is nearer. */
  lemma ToSessionIsNearest(ox: int, oy: int, w: int, h: int, x: int, y: int, a: int, b: int)
    requires 0 <= a < w && 0 <= b < h
    ensures var (sx, sy) := ToSession(ox, oy, w, h, x, y);
            && 0 <= sx < w && 0 <= sy < h
            && (if sx >= x - ox then sx - (x - ox) else (x - ox) - sx)
               <= (if a >= x - ox then a - (x - ox) else (x - ox) - a)
            && (if sy >= y - oy then sy - (y - oy) else (y - oy) - sy)
               <= (if b >= y - oy then b - (y - oy) else (y - oy) - b)
  {}
}
