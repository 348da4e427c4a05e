/** What the next boot joins (internal/ui/wifi.go:334-389): when the network
    saved is the network kept, once every goroutine is done. */
module WifiSaved {
  import opened Wifi

  predicate Pending(s: State) {
    exists k :: 0 <= k < |s.tasks| && s.tasks[k].Saving?
  }

  predicate AtRest(s: State) {
    s.job.NoJob? && s.tasks == []
  }

  /** The calls that write for the next boot work, and a forget's apply. */
  predicate Works(s: State, t: Step) {
    match t
    case JobPersists(ok) => ok
    case JobApplies(ok, _) => s.job.Forget? ==> ok
    case TaskWrites(_, ok) => ok
    case TaskPersists(_, ok) => ok
    case _ => true
  }

  /** The network kept is not changed while one is still being saved. */
  predicate Unhurried(s: State, t: Step)
    requires Enabled(s, t)
  {
    t.ForgetBegins? || (t.PollEnds? && Do(s, t).kept != s.kept) ==> !Pending(s)
  }

  // ── Runs that do not hurry ─────────────────────────────────────────────────

  /** The forget under way has written for the next boot. */
  predicate Forgotten(s: State) {
    s.job.Forget? && (s.job.at.Apply? || s.job.at == End(true))
  }

  predicate Good(s: State) {
    && (forall k :: 0 <= k < |s.tasks| && s.tasks[k].Saving? ==> s.tasks[k].c == s.kept)
    && (s.job.Forget? ==> !Pending(s))
    && (Forgotten(s) ==> s.saved == NONE)
    && (!Forgotten(s) && !Pending(s) ==> s.saved == s.kept)
  }

  function Dropped(tasks: seq<Task>, k: nat): seq<Task>
    requires k < |tasks|
  {
    tasks[..k] + tasks[k + 1..]
  }

  lemma DropPending(s: State, z: State, k: nat)
    requires k < |s.tasks| && z.tasks == Dropped(s.tasks, k) && !s.tasks[k].Saving?
    ensures Pending(s) <==> Pending(z)
  {
    if i :| 0 <= i < |s.tasks| && s.tasks[i].Saving? {
      assert z.tasks[if i < k then i else i - 1] == s.tasks[i];
    }
  }

  lemma GoodStep(s: State, t: Step)
    requires Inv(s) && Good(s) && Enabled(s, t) && Works(s, t) && Unhurried(s, t)
    ensures Good(Do(s, t))
  {
    if t.PollEnds? {
      PollGood(s, t);
    } else if OwnStep(t) {
      TaskGood(s, t);
    }
  }

  lemma PollGood(s: State, t: Step)
    requires Inv(s) && Good(s) && Enabled(s, t) && Unhurried(s, t) && t.PollEnds?
    ensures Good(Do(s, t))
  {
    var z := Do(s, t);
    assert s.tasks <= z.tasks;
    assert forall k :: 0 <= k < |s.tasks| ==> z.tasks[k] == s.tasks[k];
    if z.tasks != s.tasks {
      assert z.tasks[|s.tasks|].Saving? || z.tasks[|s.tasks|].PutBack?;
    }
  }

  predicate OwnStep(t: Step) {
    t.TaskWrites? || t.TaskPersists? || t.TaskApplies?
  }

  lemma TaskGood(s: State, t: Step)
    requires Good(s) && Enabled(s, t) && OwnStep(t) && Works(s, t)
    ensures Good(Do(s, t)) && Do(s, t).job == s.job && Do(s, t).kept == s.kept
  {
    var z := Do(s, t);
    match t
    case TaskWrites(k, _) =>
      if i :| 0 <= i < |s.tasks| && s.tasks[i].Saving? {
        assert z.tasks[i].Saving?;
      }
    case TaskApplies(k, _) => DropPending(s, z, k);
    case TaskPersists(k, _) => assert Pending(s);
  }

  /** Where the calls work and the network kept is never changed while one is
      still being saved, what the next boot joins is, at rest, the network kept. */
  lemma {:induction false} SavedIsKept(states: seq<State>, steps: seq<Step>, n: nat)
    requires Run(states, steps) && n < |states| && states[0].saved == states[0].kept
    requires forall i {:trigger steps[i]} :: 0 <= i < n ==> Works(states[i], steps[i]) && Unhurried(states[i], steps[i])
    ensures Good(states[n])
    ensures AtRest(states[n]) ==> states[n].saved == states[n].kept
  {
    if n > 0 {
      SavedIsKept(states, steps, n - 1);
      ChainKeeps(states, steps, n - 1);
      GoodStep(states[n - 1], steps[n - 1]);
    }
  }

  // ── Exactly when ───────────────────────────────────────────────────────────

  /** From s nothing happens but what its goroutines have still to do. */
  predicate Goes(s: State, states: seq<State>, steps: seq<Step>) {
    && Chain(states, steps) && states[0] == s
    && forall i {:trigger steps[i]} :: 0 <= i < |steps| ==> OwnStep(steps[i]) && Works(states[i], steps[i])
  }

  predicate Settles(s: State, states: seq<State>, steps: seq<Step>) {
    Goes(s, states, steps) && AtRest(states[|steps|])
  }

  /** Where a goroutine can be. */
  predicate Shaped(s: State) {
    forall k :: 0 <= k < |s.tasks| ==>
      s.tasks[k].at.Write? || (if s.tasks[k].Saving? then s.tasks[k].at.Persist? else s.tasks[k].at.Apply?)
  }

  /** However the goroutines that are left take turns, what is saved in the end
      is the network kept, if and only if it is all that is still to be saved,
      and is saved already if there is nothing. */
  lemma SettlesOnKept(s: State)
    requires s.job.NoJob? && Shaped(s)
    ensures (forall states: seq<State>, steps: seq<Step> :: Settles(s, states, steps) ==> states[|steps|].saved == s.kept)
            <==> && (forall k :: 0 <= k < |s.tasks| && s.tasks[k].Saving? ==> s.tasks[k].c == s.kept)
                 && (!Pending(s) ==> s.saved == s.kept)
  {
    if k: nat :| k < |s.tasks| && s.tasks[k].Saving? && s.tasks[k].c != s.kept {
      var states, steps := SavedLast(s, k);
      assert Settles(s, states, steps) && states[|steps|].saved != s.kept;
    } else if !Pending(s) && s.saved != s.kept {
      var states, steps := Drained(s, [s], [], |s.tasks|);
      assert Settles(s, states, steps) && states[|steps|].saved != s.kept;
    } else {
      forall states: seq<State>, steps: seq<Step> | Settles(s, states, steps) ensures states[|steps|].saved == s.kept {
        GoesGood(s, states, steps, |steps|);
      }
    }
  }

  lemma {:induction false} GoesGood(s: State, states: seq<State>, steps: seq<Step>, n: nat)
    requires Goes(s, states, steps) && n < |states| && s.job.NoJob? && Good(s)
    ensures Good(states[n]) && states[n].job.NoJob? && states[n].kept == s.kept
  {
    if n > 0 {
      GoesGood(s, states, steps, n - 1);
      TaskGood(states[n - 1], steps[n - 1]);
    }
  }

  lemma Further(s: State, ss: seq<State>, ts: seq<Step>, t: Step) returns (states: seq<State>, steps: seq<Step>)
    requires Goes(s, ss, ts) && Enabled(ss[|ts|], t) && OwnStep(t) && Works(ss[|ts|], t)
    ensures Goes(s, states, steps) && states[|steps|] == Do(ss[|ts|], t)
  {
    states, steps := ss + [Do(ss[|ts|], t)], ts + [t];
  }

  /** Goroutine k runs to its end. */
  lemma Finished(s: State, ss: seq<State>, ts: seq<Step>, k: nat) returns (states: seq<State>, steps: seq<Step>)
    requires Goes(s, ss, ts) && ss[|ts|].job.NoJob? && Shaped(ss[|ts|]) && k < |ss[|ts|].tasks|
    ensures Goes(s, states, steps)
    ensures var y, z := ss[|ts|], states[|steps|];
            && z.job.NoJob? && Shaped(z) && z.kept == y.kept && z.tasks == Dropped(y.tasks, k)
            && z.saved == (if y.tasks[k].Saving? then y.tasks[k].c else y.saved)
            && (y.tasks[k].Saving? && y.tasks[k].at.Write? ==> z.run == y.tasks[k].c)
  {
    states, steps := ss, ts;
    var y := ss[|ts|];
    if y.tasks[k].at.Write? {
      states, steps := Further(s, states, steps, TaskWrites(k, true));
    }
    states, steps := LastStep(s, states, steps, k);
  }

  lemma LastStep(s: State, ss: seq<State>, ts: seq<Step>, k: nat) returns (states: seq<State>, steps: seq<Step>)
    requires Goes(s, ss, ts) && ss[|ts|].job.NoJob? && Shaped(ss[|ts|])
    requires k < |ss[|ts|].tasks| && !ss[|ts|].tasks[k].at.Write?
    ensures Goes(s, states, steps)
    ensures var y, z := ss[|ts|], states[|steps|];
            && z.job.NoJob? && Shaped(z) && z.kept == y.kept && z.tasks == Dropped(y.tasks, k) && z.run == y.run
            && z.saved == (if y.tasks[k].Saving? then y.tasks[k].c else y.saved)
  {
    var y := ss[|ts|];
    var t := if y.tasks[k].Saving? then TaskPersists(k, true) else TaskApplies(k, true);
    DropShaped(y, Do(y, t), k);
    states, steps := Further(s, ss, ts, t);
  }

  lemma DropShaped(y: State, z: State, k: nat)
    requires Shaped(y) && k < |y.tasks| && z.tasks == Dropped(y.tasks, k)
    ensures Shaped(z)
  {
    assert forall i :: 0 <= i < |z.tasks| ==> z.tasks[i] == y.tasks[if i < k then i else i + 1];
  }

  /** All but goroutine k do. */
  lemma {:induction false} Drained(s: State, ss: seq<State>, ts: seq<Step>, k: nat)
    returns (states: seq<State>, steps: seq<Step>)
    requires Goes(s, ss, ts) && ss[|ts|].job.NoJob? && Shaped(ss[|ts|]) && k <= |ss[|ts|].tasks|
    ensures Goes(s, states, steps)
    ensures var y, z := ss[|ts|], states[|steps|];
            && z.job.NoJob? && Shaped(z) && z.kept == y.kept
            && z.tasks == (if k < |y.tasks| then [y.tasks[k]] else [])
            && (!Pending(y) ==> z.saved == y.saved)
    decreases |ss[|ts|].tasks|
  {
    states, steps := ss, ts;
    var y := ss[|ts|];
    if |y.tasks| > (if k < |y.tasks| then 1 else 0) {
      var j := if k == 0 then 1 else 0;
      states, steps := Finished(s, states, steps, j);
      var z := states[|steps|];
      assert forall i :: 0 <= i < |z.tasks| ==> z.tasks[i] == y.tasks[if i < j then i else i + 1];
      states, steps := Drained(s, states, steps, if j < k then k - 1 else k);
    }
  }

  /** Goroutine k is the last to save. */
  lemma SavedLast(s: State, k: nat) returns (states: seq<State>, steps: seq<Step>)
    requires s.job.NoJob? && Shaped(s) && k < |s.tasks| && s.tasks[k].Saving?
    ensures Settles(s, states, steps)
    ensures states[|steps|].saved == s.tasks[k].c && states[|steps|].kept == s.kept
    ensures s.tasks[k].at.Write? ==> states[|steps|].run == s.tasks[k].c
  {
    states, steps := Drained(s, [s], [], k);
    states, steps := Finished(s, states, steps, 0);
  }

  // ── Forgetting ─────────────────────────────────────────────────────────────

  /** From s the kept network is forgotten, and nothing else begun. */
  predicate Forgets(s: State, states: seq<State>, steps: seq<Step>) {
    && Chain(states, steps) && states[0] == s && steps != [] && steps[0].ForgetBegins?
    && (forall i :: 0 < i < |steps| ==> !steps[i].JoinBegins? && !steps[i].ForgetBegins?)
    && (forall i {:trigger steps[i]} :: 0 <= i < |steps| ==> Works(states[i], steps[i]))
    && AtRest(states[|steps|]) && states[|steps|].kept == NONE
  }

  /** A network forgotten is not joined at the next boot either, for certain, if
      and only if, as it is forgotten, it is not still being saved. */
  lemma ForgottenForGood(s: State)
    requires Inv(s) && Good(s) && Shaped(s) && s.job.NoJob? && s.kept.ssid != ""
    ensures (forall states: seq<State>, steps: seq<Step> :: Forgets(s, states, steps) ==> states[|steps|].saved == NONE)
            <==> !Pending(s)
  {
    if k: nat :| k < |s.tasks| && s.tasks[k].Saving? {
      var states, steps := SavedAfter(s, k);
      assert Forgets(s, states, steps) && states[|steps|].saved != NONE;
    } else {
      forall states: seq<State>, steps: seq<Step> | Forgets(s, states, steps) ensures states[|steps|].saved == NONE {
        ForgetGood(s, states, steps, |steps|);
      }
    }
  }

  /** Since the forget began, nothing is being joined or followed. */
  predicate Quiet(s: State) {
    !s.job.Join? && s.joining == NONE
  }

  lemma QuietStep(s: State, t: Step)
    requires Enabled(s, t) && !t.JoinBegins? && (t.ForgetBegins? || Quiet(s))
    ensures Quiet(Do(s, t)) && (t.ForgetBegins? || (t.PollEnds? ==> Do(s, t).kept == s.kept))
  {}

  lemma {:induction false} ForgetGood(s: State, states: seq<State>, steps: seq<Step>, n: nat)
    requires Forgets(s, states, steps) && n < |states| && Inv(s) && Good(s) && !Pending(s)
    ensures Good(states[n]) && Inv(states[n]) && (n > 0 ==> Quiet(states[n]))
  {
    if n > 0 {
      ForgetGood(s, states, steps, n - 1);
      QuietStep(states[n - 1], steps[n - 1]);
      GoodStep(states[n - 1], steps[n - 1]);
      StepKeeps(states[n - 1], steps[n - 1]);
    }
  }

  /** The forget is done before the goroutine that saves gets to write. */
  lemma SavedAfter(s: State, k: nat) returns (states: seq<State>, steps: seq<Step>)
    requires Good(s) && Shaped(s) && s.job.NoJob? && s.kept.ssid != ""
    requires k < |s.tasks| && s.tasks[k].Saving?
    ensures Forgets(s, states, steps) && states[|steps|].saved == s.kept
    ensures s.tasks[k].at.Write? ==> states[|steps|].run == s.kept
  {
    var ss, ts := ForgetDone(s);
    var zs, us := SavedLast(ss[|ts|], k);
    states, steps := ss[..|ts|] + zs, ts + us;
    Joined(ss, ts, zs, us);
    forall i | 0 <= i < |steps|
      ensures Works(states[i], steps[i]) && !steps[i].JoinBegins? && (i > 0 ==> !steps[i].ForgetBegins?)
    {
      JoinedAt(ss, ts, zs, us, i);
    }
    assert steps[0] == ts[0] && states[0] == ss[0];
    assert states[|steps|] == zs[|us|];
  }

  lemma ForgetDone(s: State) returns (ss: seq<State>, ts: seq<Step>)
    requires s.job.NoJob? && s.kept.ssid != ""
    ensures Chain(ss, ts) && ss[0] == s && ts == [ForgetBegins, JobWrites(true), JobPersists(true), JobApplies(true, true), JobEnds]
    ensures forall i {:trigger ts[i]} :: 0 <= i < |ts| ==> Works(ss[i], ts[i])
    ensures var z := ss[|ts|]; z.job.NoJob? && z.tasks == s.tasks && z.kept == NONE
  {
    var a := Do(s, ForgetBegins);
    var b := Do(a, JobWrites(true));
    var c := Do(b, JobPersists(true));
    var d := Do(c, JobApplies(true, true));
    ss := [s, a, b, c, d, Do(d, JobEnds)];
    ts := [ForgetBegins, JobWrites(true), JobPersists(true), JobApplies(true, true), JobEnds];
  }

  /** It happens from a fresh start: c is joined and kept, and forgotten before it
      is saved. At rest no network is kept, and c is the one the next boot joins. */
  lemma ForgottenComesBack(c: Config) returns (states: seq<State>, steps: seq<Step>)
    requires c.ssid != ""
    ensures Run(states, steps) && states[0].saved == states[0].kept
    ensures forall i {:trigger steps[i]} :: 0 <= i < |steps| ==> Works(states[i], steps[i])
    ensures AtRest(states[|steps|]) && states[|steps|].kept == NONE
    ensures states[|steps|].saved == states[|steps|].run == c
  {
    var ss, ts := KeptNotSaved(c);
    ChainKeeps(ss, ts, |ts|);
    var zs, us := SavedAfter(ss[|ts|], 0);
    states, steps := ss[..|ts|] + zs, ts + us;
    Joined(ss, ts, zs, us);
    forall i | 0 <= i < |steps| ensures Works(states[i], steps[i]) {
      JoinedAt(ss, ts, zs, us, i);
    }
    assert states[0] == ss[0] && states[|steps|] == zs[|us|];
  }

  lemma KeptNotSaved(c: Config) returns (ss: seq<State>, ts: seq<Step>)
    requires c.ssid != ""
    ensures Run(ss, ts) && ss[0].saved == ss[0].kept && forall i {:trigger ts[i]} :: 0 <= i < |ts| ==> Works(ss[i], ts[i])
    ensures var z := ss[|ts|]; z.job.NoJob? && z.kept == c && z.tasks == [Saving(c, Write)]
  {
    var s := State(NONE, NONE, NONE, Status(false, "", false), 0, NoPoll, NoJob, [], NONE, NONE, NONE);
    var seen := Read(Status(true, c.ssid, false));
    var x := Do(s, JoinBegins(c));
    var y := Do(x, JobWrites(true));
    var z := Do(y, JobApplies(true, true));
    var u := Do(z, JobEnds);
    var v := Do(u, PollBegins);
    var w := Do(v, PollReads(seen));
    ss := [s, x, y, z, u, v, w, Do(w, PollEnds(false))];
    ts := [JoinBegins(c), JobWrites(true), JobApplies(true, true), JobEnds, PollBegins, PollReads(seen), PollEnds(false)];
  }
}
