/** Joining a wireless network (internal/ui/wifi.go:248-476): what the dialog's
    state goes through as polls, joins, forgets and the goroutines they start
    run in any order. A step is a critical section, or one call a goroutine makes
    outside the lock. The interface stays the same one. */
module Wifi {

  /** A network as the kiosk joins it; secret is all it takes besides the name.
      The zero Config is no network. */
  datatype Config = Config(ssid: string, secret: string)

  const NONE := Config("", "")

  /** What wpa_supplicant says of the interface; joined: its state is COMPLETED. */
  datatype Status = Status(joined: bool, ssid: string, rejected: bool)

  predicate On(st: Status, ssid: string) {
    ssid != "" && st.joined && st.ssid == ssid
  }

  datatype Reading = Unread | Unanswered | Read(st: Status)

  /** A goroutine of refreshWifi: the generation it began in, and what it read. */
  datatype Poll = NoPoll | Poll(gen: nat, reading: Reading)

  /** Where the goroutine of a join or a forget is: about to write RunPath, to
      keep what it wrote, to have it applied, to undo a failed apply, or to take
      the lock. */
  datatype Stage = Write | Persist | Apply | Undo | End(ok: bool)

  /** That goroutine; there is one just while Busy is set. */
  datatype Job =
    | NoJob
    | Join(c: Config, prev: Config, at: Stage)
    | Forget(at: Stage)

  /** A goroutine that runs beside anything: a network given up on is being
      undone, or a network joined is being saved. */
  datatype Task =
    | PutBack(c: Config, at: Stage)
    | Saving(c: Config, at: Stage)

  datatype State = State(
    joining: Config, prev: Config, kept: Config, status: Status, gen: nat,
    poll: Poll, job: Job, tasks: seq<Task>,
    run: Config,      // in RunPath
    applied: Config,  // the one wpa_supplicant last read from it
    saved: Config)    // for the next boot

  datatype Step =
    | PollBegins
    | PollReads(reading: Reading)
    | PollEnds(late: bool)            // late: JoinBy has passed
    | JoinBegins(c: Config)
    | ForgetBegins
    | JobWrites(ok: bool)
    | JobPersists(ok: bool)
    | JobApplies(ok: bool, read: bool) // read: wpa_supplicant has read RunPath
    | JobUndoes(ok: bool)
    | JobEnds
    | TaskWrites(k: nat, ok: bool)
    | TaskPersists(k: nat, ok: bool)
    | TaskApplies(k: nat, read: bool)

  predicate Enabled(s: State, t: Step) {
    match t
    case PollBegins => s.poll.NoPoll?
    case PollReads(r) => s.poll.Poll? && s.poll.reading.Unread? && !r.Unread?
    case PollEnds(_) => s.poll.Poll? && !s.poll.reading.Unread?
    case JoinBegins(c) => s.job.NoJob? && c.ssid != ""
    case ForgetBegins => s.job.NoJob? && s.kept.ssid != ""
    case JobWrites(_) => !s.job.NoJob? && s.job.at.Write?
    case JobPersists(_) => s.job.Forget? && s.job.at.Persist?
    case JobApplies(ok, read) => !s.job.NoJob? && s.job.at.Apply? && (ok ==> read)
    case JobUndoes(_) => s.job.Join? && s.job.at.Undo?
    case JobEnds => !s.job.NoJob? && s.job.at.End?
    case TaskWrites(k, _) => k < |s.tasks| && s.tasks[k].at.Write?
    case TaskPersists(k, _) => k < |s.tasks| && s.tasks[k].Saving? && s.tasks[k].at.Persist?
    case TaskApplies(k, _) => k < |s.tasks| && s.tasks[k].PutBack? && s.tasks[k].at.Apply?
  }

  function Do(s: State, t: Step): State
    requires Enabled(s, t)
  {
    match t
    case PollBegins => s.(poll := Poll(s.gen, Unread))
    case PollReads(r) => s.(poll := s.poll.(reading := r))
    case PollEnds(late) =>
      var r := s.poll.reading;
      if s.poll.gen != s.gen then s.(poll := NoPoll)
      else Watch(s.(poll := NoPoll, status := if r.Read? then r.st else s.status), late)
    case JoinBegins(c) => s.(joining := NONE, gen := s.gen + 1, job := Join(c, s.kept, Write))
    case ForgetBegins => s.(joining := NONE, gen := s.gen + 1, job := Forget(Write))
    case JobWrites(ok) =>
      var c := if s.job.Join? then s.job.c else NONE;
      var next := if !ok then End(false) else if s.job.Join? then Apply else Persist;
      s.(run := if ok then c else s.run, job := s.job.(at := next))
    case JobPersists(ok) => s.(saved := if ok then NONE else s.saved, job := s.job.(at := Apply))
    case JobApplies(ok, read) =>
      var next := if ok then End(true) else if s.job.Join? then Undo else End(false);
      s.(applied := if read then s.run else s.applied, job := s.job.(at := next))
    case JobUndoes(ok) => s.(run := if ok then s.job.prev else s.run, job := s.job.(at := End(false)))
    case JobEnds =>
      var z := s.(job := NoJob, gen := s.gen + 1);
      if !s.job.at.ok then z
      else if s.job.Join? then z.(joining := s.job.c, prev := s.job.prev, status := Status(false, "", false))
      else z.(kept := NONE, status := Status(false, "", false))
    case TaskWrites(k, ok) =>
      if !ok then s.(tasks := s.tasks[..k] + s.tasks[k + 1..])
      else
        var next := if s.tasks[k].PutBack? then Apply else Persist;
        s.(run := s.tasks[k].c, tasks := s.tasks[k := s.tasks[k].(at := next)])
    case TaskPersists(k, ok) =>
      s.(saved := if ok then s.tasks[k].c else s.saved, tasks := s.tasks[..k] + s.tasks[k + 1..])
    case TaskApplies(k, read) =>
      s.(applied := if read then s.run else s.applied, tasks := s.tasks[..k] + s.tasks[k + 1..])
  }

  /** watch and keep. */
  function Watch(s: State, late: bool): State {
    var j := s.joining;
    if j.ssid == "" || !s.job.NoJob? then s
    else if On(s.status, j.ssid) then
      s.(joining := NONE, kept := j, tasks := s.tasks + [Saving(j, Write)])
    else if !s.status.rejected && !late then s
    else
      s.(joining := NONE, gen := s.gen + 1, tasks := s.tasks + [PutBack(s.prev, Write)])
  }

  // ── Runs ───────────────────────────────────────────────────────────────────

  /** As initWifi leaves the dialog: the network kept is the one in RunPath. */
  predicate Fresh(s: State) {
    && s.joining == NONE && s.gen == 0 && s.poll.NoPoll? && s.job.NoJob? && s.tasks == []
    && s.kept == s.run
  }

  predicate Run(states: seq<State>, steps: seq<Step>) {
    Chain(states, steps) && Fresh(states[0])
  }

  predicate Chain(states: seq<State>, steps: seq<Step>) {
    && |states| == |steps| + 1
    && forall i {:trigger steps[i]} :: 0 <= i < |steps| ==> Enabled(states[i], steps[i]) && states[i + 1] == Do(states[i], steps[i])
  }

  predicate Inv(s: State) {
    && (s.poll.Poll? ==> s.poll.gen <= s.gen)
    // A network is being followed only while nothing is being applied, and is
    // one the interface has not been seen on.
    && (s.joining.ssid != "" ==> s.job.NoJob? && !On(s.status, s.joining.ssid))
    // What would be put back is the network kept.
    && (s.job.Join? ==> s.job.prev == s.kept && s.job.c.ssid != "" && !s.job.at.Persist?)
    && (s.joining.ssid != "" ==> s.prev == s.kept)
    && (s.job.Forget? ==> !s.job.at.Undo?)
  }

  lemma {:induction false} ChainKeeps(states: seq<State>, steps: seq<Step>, n: nat)
    requires Chain(states, steps) && Inv(states[0]) && n < |states|
    ensures Inv(states[n])
  {
    if n > 0 {
      ChainKeeps(states, steps, n - 1);
      StepKeeps(states[n - 1], steps[n - 1]);
    }
  }

  lemma StepKeeps(s: State, t: Step)
    requires Inv(s) && Enabled(s, t)
    ensures Inv(Do(s, t))
  {}

  lemma {:induction false} GenGrows(states: seq<State>, steps: seq<Step>, m: nat, n: nat)
    requires Chain(states, steps) && m <= n < |states|
    ensures states[m].gen <= states[n].gen
    decreases n
  {
    if m < n {
      GenGrows(states, steps, m, n - 1);
      assert states[n] == Do(states[n - 1], steps[n - 1]);
    }
  }

  /** A poll under way: where it began, and in which generation. */
  lemma {:induction false} PollBegan(states: seq<State>, steps: seq<Step>, n: nat) returns (p: nat)
    requires Run(states, steps) && n < |states| && states[n].poll.Poll?
    ensures p < n && steps[p] == PollBegins && states[p].gen == states[n].poll.gen
    ensures forall i :: p < i < n ==> steps[i] != PollBegins
    ensures states[n].poll.reading.Read? ==>
              exists r :: p < r < n && steps[r] == PollReads(states[n].poll.reading)
  {
    if steps[n - 1] == PollBegins {
      p := n - 1;
    } else {
      p := PollBegan(states, steps, n - 1);
      if states[n].poll.reading.Read? {
        if steps[n - 1].PollReads? {
          assert steps[n - 1] == PollReads(states[n].poll.reading);
        } else {
          var r :| p < r < n - 1 && steps[r] == PollReads(states[n - 1].poll.reading);
          assert steps[r] == PollReads(states[n].poll.reading);
        }
      }
    }
  }

  lemma JoinStep(s: State, t: Step)
    requires Enabled(s, t) && Do(s, t).job.Join? && !t.JoinBegins?
    ensures s.job.Join? && s.job.c == Do(s, t).job.c && !t.ForgetBegins? && !t.JobEnds?
    ensures Do(s, t).job.at.Apply? && !s.job.at.Persist? ==> t == JobWrites(true) || s.job.at.Apply?
    ensures Do(s, t).job.at == End(true) ==> (t == JobApplies(true, true) && s.job.at.Apply?) || s.job.at == End(true)
  {}

  predicate Wrote(steps: seq<Step>, b: nat, n: nat) {
    exists u :: b < u < n <= |steps| && steps[u] == JobWrites(true)
  }

  predicate Applied(steps: seq<Step>, b: nat, n: nat) {
    exists v :: b < v < n <= |steps| && steps[v] == JobApplies(true, true) && Wrote(steps, b, v)
  }

  /** Only this join between b and n. */
  predicate OnlyJoin(states: seq<State>, steps: seq<Step>, b: nat, n: nat) {
    && b < n < |states| == |steps| + 1
    && (forall i :: b < i < n ==> !steps[i].JoinBegins? && !steps[i].ForgetBegins? && !steps[i].JobEnds?)
  }

  /** A join that has come as far as its end: where it began, put its network in
      effect and had it applied. */
  lemma {:induction false} JobBegan(states: seq<State>, steps: seq<Step>, n: nat) returns (b: nat)
    requires Run(states, steps) && n < |states| && states[n].job.Join?
    ensures OnlyJoin(states, steps, b, n) && steps[b] == JoinBegins(states[n].job.c)
    ensures states[n].job.at.Apply? ==> Wrote(steps, b, n)
    ensures states[n].job.at == End(true) ==> Applied(steps, b, n)
  {
    ChainKeeps(states, steps, n - 1);
    var s, t := states[n - 1], steps[n - 1];
    assert states[n] == Do(s, t);
    if t.JoinBegins? {
      b := n - 1;
    } else {
      JoinStep(s, t);
      b := JobBegan(states, steps, n - 1);
      if states[n].job.at.Apply? {
        assert Wrote(steps, b, n);
      } else if states[n].job.at == End(true) {
        assert Applied(steps, b, n);
      }
    }
  }

  /** A network being followed: where its join ended, in this generation. */
  lemma {:induction false} JoinEnded(states: seq<State>, steps: seq<Step>, n: nat) returns (f: nat)
    requires Run(states, steps) && n < |states| && states[n].joining.ssid != ""
    ensures f < n && steps[f] == JobEnds && states[f].job.Join? && states[f].job.at == End(true)
    ensures states[f].job.c == states[n].joining
    ensures states[f].gen < states[n].gen
    ensures forall i :: f < i < n ==> !steps[i].JoinBegins? && !steps[i].ForgetBegins?
  {
    ChainKeeps(states, steps, n - 1);
    ChainKeeps(states, steps, n);
    assert states[n] == Do(states[n - 1], steps[n - 1]);
    if states[n - 1].joining.ssid == "" {
      f := n - 1;
    } else {
      f := JoinEnded(states, steps, n - 1);
    }
  }

  // ── What is kept ───────────────────────────────────────────────────────────

  /** The join of a network that step n makes the kept one: begun at b, in effect
      at u, applied at v, done at f; then a poll begun at p that at r read the
      interface to be on it. */
  predicate Earned(steps: seq<Step>, c: Config, b: nat, u: nat, v: nat, f: nat, p: nat, r: nat, n: nat) {
    && b < u < v < f < p < r < n < |steps|
    && steps[b] == JoinBegins(c) && steps[u] == JobWrites(true) && steps[v] == JobApplies(true, true)
    && steps[f] == JobEnds && steps[p] == PollBegins
    && steps[r].PollReads? && steps[r].reading.Read? && On(steps[r].reading.st, c.ssid)
    && steps[n].PollEnds?
    && (forall i :: b < i < n ==> !steps[i].JoinBegins? && !steps[i].ForgetBegins?)
  }

  ghost predicate EarnedBy(steps: seq<Step>, c: Config, n: nat) {
    exists b, u, v, f, p, r :: Earned(steps, c, b, u, v, f, p, r, n)
  }

  /** keep, at the end of a poll. */
  predicate Keeps(states: seq<State>, steps: seq<Step>, n: nat, c: Config)
    requires |states| == |steps| + 1 && n < |steps|
  {
    steps[n].PollEnds? && states[n + 1].tasks == states[n].tasks + [Saving(c, Write)]
  }

  lemma KeepsOne(s: State, t: Step, c: Config)
    requires Inv(s) && Enabled(s, t) && t.PollEnds? && Do(s, t).tasks == s.tasks + [Saving(c, Write)]
    ensures s.joining == c && c.ssid != "" && s.poll.gen == s.gen && Do(s, t).kept == c
    ensures s.poll.reading.Read? && On(s.poll.reading.st, c.ssid)
  {
    assert Do(s, t).tasks[|s.tasks|] == Saving(c, Write);
  }

  lemma KeptNow(states: seq<State>, steps: seq<Step>, n: nat, c: Config)
    requires Run(states, steps) && n < |steps| && Keeps(states, steps, n, c)
    ensures states[n + 1].kept == c
    ensures EarnedBy(steps, c, n)
  {
    ChainKeeps(states, steps, n);
    KeepsOne(states[n], steps[n], c);
    var f := JoinEnded(states, steps, n);
    var b := JobBegan(states, steps, f);
    var v :| b < v < f && steps[v] == JobApplies(true, true) && Wrote(steps, b, v);
    var u :| b < u < v && steps[u] == JobWrites(true);
    var p := PollBegan(states, steps, n);
    if p <= f {
      GenGrows(states, steps, p, f);
      assert false;
    }
    var r :| p < r < n && steps[r] == PollReads(states[n].poll.reading);
    forall i | b < i < n ensures !steps[i].JoinBegins? && !steps[i].ForgetBegins? {
      assert i < f || i == f || f < i;
    }
    assert Earned(steps, c, b, u, v, f, p, r, n);
  }

  /** A network becomes the kept one only so: a poll begun before its join was
      done never makes it that, whatever polls, joins and forgets there are. */
  lemma KeptOnceOn(states: seq<State>, steps: seq<Step>, n: nat)
    requires Run(states, steps) && n < |steps|
    requires states[n + 1].kept != states[n].kept && states[n + 1].kept != NONE
    ensures EarnedBy(steps, states[n + 1].kept, n)
  {
    assert states[n + 1] == Do(states[n], steps[n]);
    KeptNow(states, steps, n, states[n + 1].kept);
  }

  /** And a network is saved for the next boot only after it became the kept one. */
  lemma SavedOnceKept(states: seq<State>, steps: seq<Step>, n: nat) returns (m: nat)
    requires Run(states, steps) && n < |steps|
    requires states[n + 1].saved != states[n].saved && states[n + 1].saved != NONE
    ensures m < n && EarnedBy(steps, states[n + 1].saved, m)
  {
    m := SavingBegan(states, steps, n, steps[n].k);
  }

  lemma {:induction false} SavingBegan(states: seq<State>, steps: seq<Step>, n: nat, k: nat) returns (m: nat)
    requires Run(states, steps) && n < |states| && k < |states[n].tasks| && states[n].tasks[k].Saving?
    ensures m < n && EarnedBy(steps, states[n].tasks[k].c, m)
  {
    var c := states[n].tasks[k].c;
    var was, t := states[n - 1], steps[n - 1];
    if k < |was.tasks| && was.tasks[k].Saving? && was.tasks[k].c == c {
      m := SavingBegan(states, steps, n - 1, k);
    } else if k + 1 < |was.tasks| && was.tasks[k + 1].Saving? && was.tasks[k + 1].c == c {
      m := SavingBegan(states, steps, n - 1, k + 1);
    } else {
      m := n - 1;
      assert was.poll.Poll? && t.PollEnds?;
      KeptNow(states, steps, m, c);
    }
  }

  /** A network given up on is undone with the network kept, which its failure
      has left as it was. */
  lemma PutBackIsKept(states: seq<State>, steps: seq<Step>, n: nat, c: Config)
    requires Run(states, steps) && n < |steps| && steps[n].PollEnds?
    requires states[n + 1].tasks == states[n].tasks + [PutBack(c, Write)]
    ensures c == states[n].kept == states[n + 1].kept && states[n + 1].joining == NONE
  {
    ChainKeeps(states, steps, n);
    assert states[n + 1].tasks[|states[n].tasks|] == PutBack(c, Write);
  }

  // ── What was in effect ─────────────────────────────────────────────────────

  /** A status is of the network wpa_supplicant last read. */
  predicate Honest(states: seq<State>, steps: seq<Step>)
    requires |states| == |steps| + 1
  {
    forall i :: 0 <= i < |steps| && steps[i].PollReads? && steps[i].reading.Read? && steps[i].reading.st.joined ==>
      states[i].applied.ssid == steps[i].reading.st.ssid
  }

  predicate OneJoin(steps: seq<Step>, c: Config) {
    && steps != [] && steps[0] == JoinBegins(c)
    && forall i :: 0 < i < |steps| ==> !steps[i].JoinBegins? && !steps[i].ForgetBegins?
  }

  /** From s, a join of c, and no other, that ends with c kept, the interface
      having last been looked at in step r. */
  predicate Attempt(s: State, states: seq<State>, steps: seq<Step>, c: Config, r: nat) {
    && Chain(states, steps) && Honest(states, steps) && states[0] == s
    && OneJoin(steps, c) && r < |steps| && Keeps(states, steps, |steps| - 1, c)
    && steps[r].PollReads? && forall i :: r < i < |steps| ==> !steps[i].PollReads?
  }

  /** A network of the same name, with another secret, still to be written. */
  predicate Stale(t: Task, c: Config) {
    t.at.Write? && t.c.ssid == c.ssid && t.c != c
  }

  /** A network is kept because the interface was seen on one of its name. That
      it was on with the very settings kept is certain if and only if, as the
      join begins, no goroutine has still to write other settings of that name
      — as one has that puts a network back after a password was refused, and
      nothing keeps the dialog from joining meanwhile. */
  lemma KeptIsInEffect(s: State, c: Config)
    requires Inv(s) && s.job.NoJob? && c.ssid != ""
    ensures (forall states: seq<State>, steps: seq<Step>, r: nat :: Attempt(s, states, steps, c, r) ==> states[r].applied == c)
            <==> forall k :: 0 <= k < |s.tasks| ==> !Stale(s.tasks[k], c)
  {
    if k: nat :| k < |s.tasks| && Stale(s.tasks[k], c) {
      var states, steps, r := Overtaken(s, c, k);
      assert Attempt(s, states, steps, c, r) && states[r].applied != c;
    } else {
      forall states: seq<State>, steps: seq<Step>, r: nat | Attempt(s, states, steps, c, r) ensures states[r].applied == c {
        NotOvertaken(s, states, steps, c, r);
      }
    }
  }

  /** What RunPath may hold once the join has written it. */
  predicate Due(s: State, c: Config, x: Config) {
    x == c || exists k :: 0 <= k < |s.tasks| && s.tasks[k].at.Write? && s.tasks[k].c == x
  }

  predicate Alive(z: State) {
    (z.job.Join? && (z.job.at.Write? || z.job.at.Apply? || z.job.at == End(true))) || z.joining.ssid != ""
  }

  predicate Underway(s: State, c: Config, z: State) {
    Alive(z) ==>
      && !z.job.Forget? && (z.job.Join? ==> z.job.c == c)
      && (forall k :: 0 <= k < |z.tasks| && z.tasks[k].at.Write? ==> Due(s, c, z.tasks[k].c))
      && (z.joining.ssid != "" || !z.job.at.Write? ==> Due(s, c, z.run))
      && (z.joining.ssid != "" || z.job.at.End? ==> Due(s, c, z.applied))
  }

  lemma UnderwayStep(s: State, c: Config, z: State, t: Step)
    requires Inv(z) && Underway(s, c, z) && Enabled(z, t) && !t.JoinBegins? && !t.ForgetBegins?
    ensures Underway(s, c, Do(z, t))
    ensures Alive(Do(z, t)) ==> Alive(z)
  {}

  lemma {:induction false} UnderwayAll(s: State, states: seq<State>, steps: seq<Step>, c: Config, m: nat, n: nat)
    requires Chain(states, steps) && states[0] == s && Inv(s) && 0 < m <= n < |states|
    requires steps[0] == JoinBegins(c) && forall i :: 0 < i < n ==> !steps[i].JoinBegins? && !steps[i].ForgetBegins?
    ensures Underway(s, c, states[n])
    ensures Alive(states[n]) ==> Alive(states[m])
    ensures states[m].job.Join? ==> states[n].job.Join? || states[m].gen < states[n].gen
    decreases n
  {
    if n == 1 {
      assert states[1] == Do(s, JoinBegins(c));
    } else {
      UnderwayAll(s, states, steps, c, if m < n then m else n - 1, n - 1);
      ChainKeeps(states, steps, n - 1);
      if m < n {
        GenGrows(states, steps, m, n - 1);
      }
      assert states[n] == Do(states[n - 1], steps[n - 1]);
      UnderwayStep(s, c, states[n - 1], steps[n - 1]);
    }
  }

  /** A poll done reading holds what was last read. */
  lemma {:induction false} ReadLast(states: seq<State>, steps: seq<Step>, r: nat, n: nat)
    requires Chain(states, steps) && r < n < |states| && steps[r].PollReads?
    requires forall i :: r < i < n ==> !steps[i].PollReads?
    requires states[n].poll.Poll? && !states[n].poll.reading.Unread?
    ensures states[n].poll == Poll(states[r].poll.gen, steps[r].reading) && states[r].poll.Poll?
    decreases n
  {
    assert states[n] == Do(states[n - 1], steps[n - 1]);
    if r < n - 1 {
      ReadLast(states, steps, r, n - 1);
    }
  }

  /** At the last look before c is kept, the join is done and c is followed. */
  lemma AtTheReading(s: State, states: seq<State>, steps: seq<Step>, c: Config, r: nat)
    requires Inv(s) && s.job.NoJob? && Attempt(s, states, steps, c, r)
    ensures Underway(s, c, states[r]) && states[r].joining.ssid != ""
    ensures steps[r].reading.Read? && On(steps[r].reading.st, c.ssid)
  {
    var n := |steps| - 1;
    ChainKeeps(states, steps, n);
    KeepsOne(states[n], steps[n], c);
    ReadLast(states, steps, r, n);
    UnderwayAll(s, states, steps, c, r, n);
    UnderwayAll(s, states, steps, c, r, r);
    ChainKeeps(states, steps, r);
    assert !states[r].job.Join?;
  }

  lemma NotOvertaken(s: State, states: seq<State>, steps: seq<Step>, c: Config, r: nat)
    requires Inv(s) && s.job.NoJob? && Attempt(s, states, steps, c, r)
    requires forall k :: 0 <= k < |s.tasks| ==> !Stale(s.tasks[k], c)
    ensures states[r].applied == c
  {
    AtTheReading(s, states, steps, c, r);
    assert Due(s, c, states[r].applied);
    assert states[r].applied.ssid == c.ssid;
  }

  lemma Then(s: State, states: seq<State>, steps: seq<Step>, c: Config, t: Step)
    returns (states': seq<State>, steps': seq<Step>)
    requires Begun(s, states, steps, c) && Enabled(states[|steps|], t) && !t.JoinBegins? && !t.ForgetBegins?
    requires t.PollReads? && t.reading.Read? && t.reading.st.joined ==>
               states[|steps|].applied.ssid == t.reading.st.ssid
    ensures Begun(s, states', steps', c)
    ensures states' == states + [Do(states[|steps|], t)] && steps' == steps + [t]
  {
    states', steps' := states + [Do(states[|steps|], t)], steps + [t];
  }

  predicate Begun(s: State, states: seq<State>, steps: seq<Step>, c: Config) {
    Chain(states, steps) && Honest(states, steps) && states[0] == s && OneJoin(steps, c)
  }

  /** A goroutine that writes between the join's write and its apply. */
  lemma Overtaken(s: State, c: Config, k: nat) returns (states: seq<State>, steps: seq<Step>, r: nat)
    requires Inv(s) && s.job.NoJob? && c.ssid != "" && k < |s.tasks| && Stale(s.tasks[k], c)
    ensures Attempt(s, states, steps, c, r) && states[r].applied == s.tasks[k].c
  {
    states, steps := [s, Do(s, JoinBegins(c))], [JoinBegins(c)];
    states, steps := Then(s, states, steps, c, JobWrites(true));
    states, steps := Then(s, states, steps, c, TaskWrites(k, true));
    states, steps := Then(s, states, steps, c, JobApplies(true, true));
    states, steps := Then(s, states, steps, c, JobEnds);
    assert states[|steps|].applied == s.tasks[k].c;
    states, steps, r := SeenOn(s, states, steps, c);
  }

  lemma SeenOn(s: State, ss: seq<State>, ts: seq<Step>, c: Config)
    returns (states: seq<State>, steps: seq<Step>, r: nat)
    requires Begun(s, ss, ts, c)
    requires var z := ss[|ts|];
             && z.joining == c && z.job.NoJob? && c.ssid != "" && z.applied.ssid == c.ssid
             && (z.poll.Poll? ==> z.poll.gen < z.gen)
    ensures Attempt(s, states, steps, c, r) && states[r].applied == ss[|ts|].applied
  {
    states, steps := PollOver(s, ss, ts, c);
    states, steps := Then(s, states, steps, c, PollBegins);
    r := |steps|;
    states, steps := Then(s, states, steps, c, PollReads(Read(Status(true, c.ssid, false))));
    states, steps := Then(s, states, steps, c, PollEnds(false));
  }

  /** A poll begun before the join was done ends without effect. */
  lemma PollOver(s: State, ss: seq<State>, ts: seq<Step>, c: Config)
    returns (states: seq<State>, steps: seq<Step>)
    requires Begun(s, ss, ts, c)
    requires var z := ss[|ts|]; z.poll.Poll? ==> z.poll.gen < z.gen
    ensures Begun(s, states, steps, c) && states[|steps|] == ss[|ts|].(poll := NoPoll)
  {
    states, steps := ss, ts;
    if states[|steps|].poll.Poll? {
      if states[|steps|].poll.reading.Unread? {
        states, steps := Then(s, states, steps, c, PollReads(Unanswered));
      }
      states, steps := Then(s, states, steps, c, PollEnds(false));
    }
  }

  // ── And a run in which it was not ──────────────────────────────────────────

  lemma Next(states: seq<State>, steps: seq<Step>, t: Step) returns (states': seq<State>, steps': seq<Step>)
    requires Run(states, steps) && Honest(states, steps) && Enabled(states[|steps|], t)
    requires t.PollReads? && t.reading.Read? && t.reading.st.joined ==>
               states[|steps|].applied.ssid == t.reading.st.ssid
    ensures Run(states', steps') && Honest(states', steps')
    ensures |steps'| == |steps| + 1 && states'[|steps'|] == Do(states[|steps|], t)
  {
    states', steps' := states + [Do(states[|steps|], t)], steps + [t];
  }

  /** The kept network is p. Another is joined, and its password refused: p is to
      be put back, by a goroutine nothing waits for. */
  lemma Refused(p: Config, q: Config) returns (states: seq<State>, steps: seq<Step>)
    requires q.ssid != ""
    ensures Run(states, steps) && Honest(states, steps)
    ensures var z := states[|steps|]; z.job.NoJob? && z.kept == p && z.tasks == [PutBack(p, Write)]
  {
    var s := State(NONE, NONE, p, Status(true, p.ssid, false), 0, NoPoll, NoJob, [], p, p, p);
    states, steps := [s], [];
    states, steps := Next(states, steps, JoinBegins(q));
    states, steps := Next(states, steps, JobWrites(true));
    states, steps := Next(states, steps, JobApplies(true, true));
    states, steps := Next(states, steps, JobEnds);
    states, steps := Next(states, steps, PollBegins);
    states, steps := Next(states, steps, PollReads(Read(Status(false, q.ssid, true))));
    states, steps := Next(states, steps, PollEnds(false));
  }

  /** Two runs end to end, at one step. */
  lemma JoinedAt(ss: seq<State>, ts: seq<Step>, zs: seq<State>, us: seq<Step>, i: nat)
    requires |ss| == |ts| + 1 && |zs| == |us| + 1 && zs[0] == ss[|ts|] && i < |ts| + |us|
    ensures (ss[..|ts|] + zs)[i] == if i < |ts| then ss[i] else zs[i - |ts|]
    ensures (ss[..|ts|] + zs)[i + 1] == if i < |ts| then ss[i + 1] else zs[i - |ts| + 1]
    ensures (ts + us)[i] == if i < |ts| then ts[i] else us[i - |ts|]
  {}

  lemma Joined(ss: seq<State>, ts: seq<Step>, zs: seq<State>, us: seq<Step>)
    requires Chain(ss, ts) && Chain(zs, us) && zs[0] == ss[|ts|]
    ensures Chain(ss[..|ts|] + zs, ts + us)
  {
    forall i | 0 <= i < |ts + us|
      ensures Enabled((ss[..|ts|] + zs)[i], (ts + us)[i])
      ensures (ss[..|ts|] + zs)[i + 1] == Do((ss[..|ts|] + zs)[i], (ts + us)[i])
    {
      JoinedAt(ss, ts, zs, us, i);
      if i < |ts| {
        assert Enabled(ss[i], ts[i]) && ss[i + 1] == Do(ss[i], ts[i]);
      } else {
        assert Enabled(zs[i - |ts|], us[i - |ts|]) && zs[i - |ts| + 1] == Do(zs[i - |ts|], us[i - |ts|]);
      }
    }
  }

  lemma HonestJoined(ss: seq<State>, ts: seq<Step>, zs: seq<State>, us: seq<Step>)
    requires |ss| == |ts| + 1 && |zs| == |us| + 1 && zs[0] == ss[|ts|] && Honest(ss, ts) && Honest(zs, us)
    ensures Honest(ss[..|ts|] + zs, ts + us)
  {
    forall i | 0 <= i < |ts + us| ensures (ts + us)[i] == if i < |ts| then ts[i] else us[i - |ts|]
                                  ensures (ss[..|ts|] + zs)[i] == if i < |ts| then ss[i] else zs[i - |ts|]
    {
      JoinedAt(ss, ts, zs, us, i);
    }
  }

  /** Then p is joined again with yet another password: the network kept in the
      end is c, and the interface, when it was last looked at, was on it with
      p's. */
  lemma KeptOnAnother(p: Config, c: Config)
    returns (states: seq<State>, steps: seq<Step>, n: nat, r: nat)
    requires c.ssid != "" && p.ssid == c.ssid && p != c
    ensures Run(states, steps) && Honest(states, steps) && n < |steps|
    ensures Attempt(states[n], states[n..], steps[n..], c, r) && states[n + r].applied == p
  {
    var ss, ts := Refused(p, c);
    ChainKeeps(ss, ts, |ts|);
    var zs, us;
    zs, us, r := Overtaken(ss[|ts|], c, 0);
    n := |ts|;
    states, steps := ss[..n] + zs, ts + us;
    Joined(ss, ts, zs, us);
    HonestJoined(ss, ts, zs, us);
    assert states[0] == ss[0];
    assert states[n..] == zs && steps[n..] == us;
  }
}
