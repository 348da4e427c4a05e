/** How following a network ends (internal/ui/wifi.go:252-327, 359-389): kept,
    given up or followed on, and what a network given up leaves behind. */
module WifiWatch {
  import opened Wifi

  /** What the poll that ends in step n knows of the interface. */
  function Seen(s: State): Status
    requires s.poll.Poll?
  {
    if s.poll.reading.Read? then s.poll.reading.st else s.status
  }

  /** The poll saw the interface joined to the network being followed. */
  predicate SeenOn(s: State)
    requires s.poll.Poll?
  {
    Seen(s).joined && Seen(s).ssid == s.joining.ssid
  }

  predicate Following(s: State) {
    s.poll.Poll? && s.poll.gen == s.gen && s.job.NoJob? && s.joining.ssid != ""
  }

  predicate GivesUp(s: State, z: State) {
    z.joining == NONE && z.gen == s.gen + 1 && z.kept == s.kept && z.tasks == s.tasks + [PutBack(s.kept, Write)]
  }

  predicate KeepsIt(s: State, z: State) {
    z.joining == NONE && z.gen == s.gen && z.kept == s.joining && z.tasks == s.tasks + [Saving(s.joining, Write)]
  }

  predicate FollowsOn(s: State, z: State) {
    z.joining == s.joining && z.gen == s.gen && z.kept == s.kept && z.tasks == s.tasks
  }

  /** At the end of a poll a network followed is kept just when the interface is on
      it; given up just when it is not, and its time is up or it was refused; and
      followed on just when neither. */
  lemma PollDecides(states: seq<State>, steps: seq<Step>, n: nat)
    requires Run(states, steps) && n < |steps| && steps[n].PollEnds? && Following(states[n])
    ensures var s, z := states[n], states[n + 1];
            && (KeepsIt(s, z) <==> SeenOn(s))
            && (GivesUp(s, z) <==> !SeenOn(s) && (steps[n].late || Seen(s).rejected))
            && (FollowsOn(s, z) <==> !SeenOn(s) && !steps[n].late && !Seen(s).rejected)
            && (z.run, z.applied, z.saved, z.job, z.status) == (s.run, s.applied, s.saved, s.job, Seen(s))
  {
    ChainKeeps(states, steps, n);
    var s, z := states[n], states[n + 1];
    assert z == Do(s, steps[n]);
    assert KeepsIt(s, z) ==> z.tasks[|s.tasks|].Saving?;
    assert GivesUp(s, z) ==> z.tasks[|s.tasks|].PutBack?;
  }

  /** Any other poll decides nothing, and one begun in an earlier generation does
      not say how the interface is either. */
  lemma OtherPolls(states: seq<State>, steps: seq<Step>, n: nat)
    requires Run(states, steps) && n < |steps| && steps[n].PollEnds? && !Following(states[n])
    ensures var s, z := states[n], states[n + 1];
            && z.poll.NoPoll? && FollowsOn(s, z)
            && (z.run, z.applied, z.saved, z.job) == (s.run, s.applied, s.saved, s.job)
            && z.status == if s.poll.gen == s.gen then Seen(s) else s.status
  {
    assert states[n + 1] == Do(states[n], steps[n]);
  }

  // ── Putting the kept network back ──────────────────────────────────────────

  predicate PollStep(t: Step) {
    t.PollBegins? || t.PollReads? || t.PollEnds?
  }

  /** A network is given up in step n; up to state m nothing else is done but
      polls and what goroutine k, which undoes it, does, all of it working. */
  predicate Undoing(states: seq<State>, steps: seq<Step>, n: nat, m: nat)
    requires |states| == |steps| + 1 && n < m < |states|
  {
    && steps[n].PollEnds? && GivesUp(states[n], states[n + 1])
    && forall i :: n < i < m ==>
         PollStep(steps[i]) || steps[i] == TaskWrites(|states[n].tasks|, true) || steps[i] == TaskApplies(|states[n].tasks|, true)
  }

  /** How far goroutine k is. */
  predicate PuttingBack(z: State, c: Config, k: nat, others: seq<Task>) {
    && z.joining == NONE && z.kept == c && |others| == k
    && if z.tasks == others + [PutBack(c, Write)] then true
       else if z.tasks == others + [PutBack(c, Apply)] then z.run == c
       else z.tasks == others && z.run == z.applied == c
  }

  lemma PuttingBackStep(z: State, t: Step, c: Config, k: nat, others: seq<Task>)
    requires PuttingBack(z, c, k, others) && Enabled(z, t)
    requires PollStep(t) || ((t == TaskWrites(k, true) || t == TaskApplies(k, true)) && k < |z.tasks|)
    ensures PuttingBack(Do(z, t), c, k, others)
  {
    var a, b := others + [PutBack(c, Write)], others + [PutBack(c, Apply)];
    assert a[k] == PutBack(c, Write) && b[k] == PutBack(c, Apply);
    assert a[k := PutBack(c, Apply)] == b && b[..k] + b[k + 1..] == others;
  }

  lemma {:induction false} PuttingBackAll(states: seq<State>, steps: seq<Step>, n: nat, m: nat)
    requires Run(states, steps) && n < m < |states| && Undoing(states, steps, n, m)
    ensures PuttingBack(states[m], states[n].kept, |states[n].tasks|, states[n].tasks)
    decreases m
  {
    if m > n + 1 {
      PuttingBackAll(states, steps, n, m - 1);
      assert states[m] == Do(states[m - 1], steps[m - 1]);
      PuttingBackStep(states[m - 1], steps[m - 1], states[n].kept, |states[n].tasks|, states[n].tasks);
    }
  }

  /** Once the goroutine that undoes it is done, the network kept is the one in
      RunPath and the one wpa_supplicant has read. */
  lemma GivenUpIsUndone(states: seq<State>, steps: seq<Step>, n: nat, m: nat)
    requires Run(states, steps) && n < m < |states| && Undoing(states, steps, n, m)
    requires states[m].tasks == states[n].tasks
    ensures states[m].run == states[m].applied == states[m].kept == states[n].kept && states[m].joining == NONE
  {
    PuttingBackAll(states, steps, n, m);
  }

  /** It gets there: its two calls, and it is done. */
  lemma UndoneInTwo(states: seq<State>, steps: seq<Step>, n: nat) returns (states': seq<State>, steps': seq<Step>)
    requires Run(states, steps) && |steps| == n + 1 && steps[n].PollEnds? && GivesUp(states[n], states[n + 1])
    ensures Run(states', steps') && |steps'| == n + 3 && states'[..n + 2] == states && steps'[..n + 1] == steps
    ensures Undoing(states', steps', n, n + 3) && states'[n + 3].tasks == states[n].tasks
    ensures states'[n + 3].run == states'[n + 3].applied == states[n].kept
  {
    var k, s := |states[n].tasks|, states[n + 1];
    var t, u := TaskWrites(k, true), TaskApplies(k, true);
    assert s.tasks[k] == PutBack(states[n].kept, Write);
    var y := Do(s, t);
    var z := Do(y, u);
    states', steps' := states + [y, z], steps + [t, u];
    assert z.tasks == states[n].tasks;
  }

  lemma ForgetCan(s: State, writes: bool, persists: bool, applies: bool, read: bool) returns (states: seq<State>)
    requires s.job.NoJob? && s.kept.ssid != "" && (applies ==> read)
    ensures Chain(states, ForgetOf(writes, persists, applies, read)) && states[0] == s
  {
    var a := Do(s, ForgetBegins);
    var b := Do(a, JobWrites(writes));
    if !writes {
      states := [s, a, b, Do(b, JobEnds)];
    } else {
      var d := Do(b, JobPersists(persists));
      var e := Do(d, JobApplies(applies, read));
      states := [s, a, b, d, e, Do(e, JobEnds)];
    }
  }

  // ── A goroutine's calls ────────────────────────────────────────────────────

  /** A write that works has its network in RunPath, and then comes its other call;
      one that fails changes nothing, and it is done. */
  lemma TaskWritten(s: State, k: nat, ok: bool)
    requires Enabled(s, TaskWrites(k, ok))
    ensures var z := Do(s, TaskWrites(k, ok));
            && z == s.(run := z.run, tasks := z.tasks)
            && if ok then
                 && z.run == s.tasks[k].c && |z.tasks| == |s.tasks| && z.tasks[k] == s.tasks[k].(at := z.tasks[k].at)
                 && (if z.tasks[k].PutBack? then z.tasks[k].at.Apply? else z.tasks[k].at.Persist?)
                 && forall i :: 0 <= i < |s.tasks| && i != k ==> z.tasks[i] == s.tasks[i]
               else z.run == s.run && z.tasks == s.tasks[..k] + s.tasks[k + 1..]
  {}

  /** Its other call is its last: a save that works is of its network, one that does
      not leaves what was saved; wpa_supplicant has what it read. */
  lemma TaskEnds(s: State, t: Step)
    requires Enabled(s, t) && (t.TaskPersists? || t.TaskApplies?)
    ensures var z := Do(s, t);
            && z == s.(saved := z.saved, applied := z.applied, tasks := s.tasks[..t.k] + s.tasks[t.k + 1..])
            && z.saved == (if t.TaskPersists? && t.ok then s.tasks[t.k].c else s.saved)
            && z.applied == (if t.TaskApplies? && t.read then s.run else s.applied)
  {}

  // ── A join that cannot be applied ──────────────────────────────────────────

  /** One that is undone has the kept network in RunPath again. */
  lemma UndoneJoin(states: seq<State>, steps: seq<Step>, n: nat)
    requires Run(states, steps) && n < |steps| && steps[n].JobUndoes?
    ensures var s, z := states[n], states[n + 1];
            && z.run == (if steps[n].ok then s.kept else s.run) && z.kept == s.kept && z.applied == s.applied
            && z.joining == s.joining == NONE && z.job.Join? && z.job.at == End(false)
  {
    ChainKeeps(states, steps, n);
    assert states[n + 1] == Do(states[n], steps[n]);
    NotFollowing(states, steps, n);
  }

  /** Nothing is followed while a join or a forget is under way. */
  lemma {:induction false} NotFollowing(states: seq<State>, steps: seq<Step>, n: nat)
    requires Run(states, steps) && n < |states| && !states[n].job.NoJob?
    ensures states[n].joining == NONE
  {
    if n > 0 {
      assert states[n] == Do(states[n - 1], steps[n - 1]);
      if !states[n - 1].job.NoJob? {
        NotFollowing(states, steps, n - 1);
      }
    }
  }

  /** A join of c with nothing else at work, as its calls answer. */
  function JoinOf(c: Config, writes: bool, applies: bool, read: bool, undone: bool): seq<Step> {
    if !writes then [JoinBegins(c), JobWrites(false), JobEnds]
    else if applies then [JoinBegins(c), JobWrites(true), JobApplies(true, true), JobEnds]
    else [JoinBegins(c), JobWrites(true), JobApplies(false, read), JobUndoes(undone), JobEnds]
  }

  lemma JoinFails(states: seq<State>, steps: seq<Step>, c: Config, read: bool, undone: bool)
    requires Chain(states, steps) && steps == JoinOf(c, true, false, read, undone)
    ensures var s, z := states[0], states[5];
            && z.job.NoJob? && z.kept == s.kept && z.saved == s.saved && z.tasks == s.tasks && z.gen == s.gen + 2
            && z.joining == NONE && z.run == (if undone then s.kept else c) && z.applied == (if read then c else s.applied)
  {
    assert steps[0] == JoinBegins(c) && steps[1] == JobWrites(true);
    assert steps[2] == JobApplies(false, read) && steps[3] == JobUndoes(undone) && steps[4] == JobEnds;
    forall i | 0 <= i < 5 ensures states[i + 1] == Do(states[i], steps[i]) {}
  }

  /** It is followed only if its calls work, with the network to go back to; what
      is kept and saved stays. In RunPath is then c, or, undone, the kept one. */
  lemma WholeJoin(states: seq<State>, steps: seq<Step>, c: Config, writes: bool, applies: bool, read: bool, undone: bool)
    requires Chain(states, steps) && steps == JoinOf(c, writes, applies, read, undone)
    ensures var s, z := states[0], states[|steps|];
            && z.job.NoJob? && z.kept == s.kept && z.saved == s.saved && z.tasks == s.tasks && z.gen == s.gen + 2
            && z.joining == (if writes && applies then c else NONE)
            && (writes && applies ==> z.prev == s.kept && !z.status.joined && !z.status.rejected)
            && z.run == (if !writes then s.run else if !applies && undone then s.kept else c)
            && z.applied == (if writes && (applies || read) then c else s.applied)
  {
    if writes && !applies {
      JoinFails(states, steps, c, read, undone);
    } else {
      forall i | 0 <= i < |steps| ensures states[i + 1] == Do(states[i], steps[i]) {}
      assert steps[0] == JoinBegins(c) && steps[1] == JobWrites(writes);
      if writes {
        assert steps[2] == JobApplies(true, true);
      }
    }
  }

  /** And every such join can go so, from anywhere no other is under way. */
  lemma JoinCan(s: State, c: Config, writes: bool, applies: bool, read: bool, undone: bool) returns (states: seq<State>)
    requires s.job.NoJob? && c.ssid != ""
    ensures Chain(states, JoinOf(c, writes, applies, read, undone)) && states[0] == s
  {
    var a := Do(s, JoinBegins(c));
    var b := Do(a, JobWrites(writes));
    if !writes {
      states := [s, a, b, Do(b, JobEnds)];
    } else if applies {
      var d := Do(b, JobApplies(true, true));
      states := [s, a, b, d, Do(d, JobEnds)];
    } else {
      var d := Do(b, JobApplies(false, read));
      var e := Do(d, JobUndoes(undone));
      states := [s, a, b, d, e, Do(e, JobEnds)];
    }
  }

  function ForgetOf(writes: bool, persists: bool, applies: bool, read: bool): seq<Step> {
    if !writes then [ForgetBegins, JobWrites(false), JobEnds]
    else [ForgetBegins, JobWrites(true), JobPersists(persists), JobApplies(applies, read), JobEnds]
  }

  /** A network is forgotten only if its calls work; nothing puts it back in
      RunPath, or saves it again, when having that read fails. */
  lemma WholeForget(states: seq<State>, steps: seq<Step>, writes: bool, persists: bool, applies: bool, read: bool)
    requires Chain(states, steps) && steps == ForgetOf(writes, persists, applies, read)
    ensures var s, z := states[0], states[|steps|];
            && z.job.NoJob? && z.joining == NONE && z.tasks == s.tasks && z.gen == s.gen + 2
            && z.kept == (if writes && applies then NONE else s.kept)
            && z.run == (if writes then NONE else s.run) && z.saved == (if writes && persists then NONE else s.saved)
            && z.applied == (if writes && read then NONE else s.applied)
            && (writes && applies ==> !z.status.joined && !z.status.rejected)
  {
    forall i | 0 <= i < |steps| ensures states[i + 1] == Do(states[i], steps[i]) {}
    assert steps[0] == ForgetBegins && steps[1] == JobWrites(writes);
    if writes {
      assert steps[2] == JobPersists(persists) && steps[3] == JobApplies(applies, read);
    }
  }

  /** A join begun with the kept network in effect whose apply fails, and is undone:
      the kept network is then in RunPath, but wpa_supplicant has it if and only
      if the apply failed before it read the other; nothing has it read RunPath
      again. */
  lemma FailedJoin(states: seq<State>, steps: seq<Step>, c: Config, read: bool)
    requires Chain(states, steps) && steps == JoinOf(c, true, false, read, true)
    requires var s := states[0]; s.run == s.applied == s.kept
    ensures var s, z := states[0], states[5];
            && z.job.NoJob? && z.joining == NONE && z.kept == s.kept && z.run == z.kept && z.tasks == s.tasks
            && (z.applied == z.kept <==> !read || c == z.kept)
  {
    JoinFails(states, steps, c, read, true);
  }
}
