/** The two system slots of a disk install over any number of boots: an update
    is written to the slot not running, tried once, and kept or given up
    (internal/update/update.go:299-330, 536-593; internal/bootenv/bootenv.go:
    275-333, 424-433; build/grub-disk.cfg). The power can go at any step.

    A write to the other slot is any change of its files at all, up to the point
    where unpack has returned without an error. */
module Slots {
  import opened Helpers
  import opened Unpack

  datatype Side = A | B

  function Other(s: Side): Side {
    if s == A then B else A
  }

  type Filesystem = map<string, Data>

  /** grubenv: sc_boot and sc_try. */
  datatype Env = Env(boot: Side, try: Option<Side>)

  /** How far Install is (internal/update/update.go:299-330). */
  datatype Job =
    | Idle
    | Writing(tag: string)     // in WithMounted: unpack
    | Written(tag: string)     // unpack has returned nil
    | Set(tag: string)         // TryOther has
    | Restarting(tag: string)  // the update is remembered: UpdateRestart

  datatype Kiosk =
    | Off
    | Up(side: Side, settled: bool, good: bool, job: Job)

  datatype Record = NoRecord | Record(tag: string, side: Side)

  /** proven is history, not stored anywhere: whether the release remembered as
      tried has been marked good since. */
  datatype State = State(
    env: Env, a: Filesystem, b: Filesystem, kiosk: Kiosk,
    tried: Record, failed: string, proven: bool)

  function Slot(s: State, side: Side): Filesystem {
    if side == A then s.a else s.b
  }

  function WithSlot(s: State, side: Side, f: Filesystem): State {
    if side == A then s.(a := f) else s.(b := f)
  }

  /** The release server: the files of each release by its tag, which a matching
      checksum says a download is. */
  type Server = map<string, seq<Entry>>

  /** Others than releases unpack would not take from it. */
  predicate Proper(server: Server) {
    forall tag :: tag in server ==> IsRelease(server[tag], tag)
  }

  /** The file system holds release tag, whole and alone. */
  ghost predicate HoldsRelease(f: Filesystem, server: Server, tag: string) {
    tag in server && Holding(f, Mkfs(f), server[tag], |server[tag]|)
  }

  ghost predicate Whole(f: Filesystem, server: Server) {
    exists tag :: HoldsRelease(f, server, tag)
  }

  /** The slot GRUB boots unless told otherwise: the tried one, once, else the
      known-good one. */
  function Chosen(env: Env): Side {
    if env.try.Some? then env.try.value else env.boot
  }

  datatype Step =
    | PowerCut                     // a restart too
    | Boot(previous: bool)         // GRUB; previous: the menu's last entry, or its fallback
    | Settle
    | MarkGood
    | Keep                         // update.Kept, once MarkGood has worked
    | Start(tag: string)           // startUpdate, and Install up to the download
    | Touch(files: Filesystem)     // unpack at work
    | Fail                         // unpack fails, or TryOther before its write
    | Unpacked
    | TryOther
    | TryOtherFails                // after its write: in the sync, the close or the unmount
    | Remember

  ghost predicate Enabled(s: State, server: Server, t: Step) {
    match t
    case PowerCut => s.kiosk.Up?
    case Boot(_) => s.kiosk.Off?
    case Settle => s.kiosk.Up? && !s.kiosk.settled
    // Twenty seconds after start-up, so after Settle; and a partly written
    // slot never comes up far enough to get here.
    case MarkGood => s.kiosk.Up? && s.kiosk.settled && Whole(Slot(s, s.kiosk.side), server)
    case Keep => s.kiosk.Up? && s.kiosk.good
    // The dialog starts one update at a time and none after one has worked;
    // Install refuses until this boot's slot is the known-good one.
    case Start(_) => s.kiosk.Up? && s.kiosk.settled && s.kiosk.job.Idle? && s.env.boot == s.kiosk.side
    case Touch(_) => s.kiosk.Up? && s.kiosk.job.Writing?
    case Fail => s.kiosk.Up? && (s.kiosk.job.Writing? || s.kiosk.job.Written?)
    case Unpacked =>
      && s.kiosk.Up? && s.kiosk.job.Writing?
      && HoldsRelease(Slot(s, Other(s.kiosk.side)), server, s.kiosk.job.tag)
    case TryOther => s.kiosk.Up? && s.kiosk.job.Written?
    case TryOtherFails => s.kiosk.Up? && s.kiosk.job.Written?
    case Remember => s.kiosk.Up? && s.kiosk.job.Set?
  }

  ghost function Apply(s: State, server: Server, t: Step): State
    requires Enabled(s, server, t)
  {
    match t
    case PowerCut => s.(kiosk := Off)
    case Boot(previous) =>
      var side := Chosen(s.env);
      s.(env := s.env.(try := None),
         kiosk := Up(if previous then Other(side) else side, false, false, Idle))
    case Settle =>
      var k := s.kiosk.(settled := true);
      if s.tried.Record? && s.tried.side != k.side then
        s.(kiosk := k, tried := NoRecord, failed := s.tried.tag)
      else s.(kiosk := k)
    case MarkGood =>
      s.(env := s.env.(boot := s.kiosk.side), kiosk := s.kiosk.(good := true),
         proven := s.proven || (s.tried.Record? && s.tried.side == s.kiosk.side))
    case Keep =>
      if s.tried.Record? && s.tried.side == s.kiosk.side then s.(tried := NoRecord, failed := "") else s
    case Start(tag) => s.(kiosk := s.kiosk.(job := Writing(tag)))
    case Touch(files) => WithSlot(s, Other(s.kiosk.side), files)
    case Fail => s.(kiosk := s.kiosk.(job := Idle))
    case Unpacked => s.(kiosk := s.kiosk.(job := Written(s.kiosk.job.tag)))
    case TryOther =>
      s.(env := s.env.(try := Some(Other(s.kiosk.side))), kiosk := s.kiosk.(job := Set(s.kiosk.job.tag)))
    case TryOtherFails =>
      s.(env := s.env.(try := Some(Other(s.kiosk.side))), kiosk := s.kiosk.(job := Idle))
    case Remember =>
      s.(tried := Record(s.kiosk.job.tag, Other(s.kiosk.side)), proven := false,
         kiosk := s.kiosk.(job := Restarting(s.kiosk.job.tag)))
  }

  /** What Settle says: the release tried and whether this boot is it. */
  predicate SettlesOk(s: State) {
    s.kiosk.Up? && s.tried.Record? && s.tried.side == s.kiosk.side
  }

  ghost predicate Inv(s: State, server: Server) {
    // The slot GRUB comes back to is whole, always.
    && Whole(Slot(s, s.env.boot), server)
    // A try is of the slot not running, from TryOther to GRUB.
    && (s.env.try.Some? && s.kiosk.Up? ==>
          s.kiosk.settled && s.env.boot == s.kiosk.side && s.env.try.value == Other(s.kiosk.side))
    && (s.kiosk.Up? && (s.kiosk.job.Set? || s.kiosk.job.Restarting?) ==> s.env.try.Some?)
    // An update is only at work on the slot GRUB does not come back to.
    && (s.kiosk.Up? && !s.kiosk.job.Idle? ==> s.env.boot == s.kiosk.side && s.kiosk.settled)
    && (s.kiosk.Up? && (s.kiosk.job.Written? || s.kiosk.job.Set? || s.kiosk.job.Restarting?) ==>
          HoldsRelease(Slot(s, Other(s.kiosk.side)), server, s.kiosk.job.tag))
    // A remembered try is of the release in its slot.
    && (s.tried.Record? ==> HoldsRelease(Slot(s, s.tried.side), server, s.tried.tag))
    && (s.tried.Record? && s.kiosk.Up? && s.kiosk.settled && !s.kiosk.job.Restarting? ==>
          s.tried.side == s.kiosk.side)
    // It has been marked good just when sc_boot names its slot.
    && (s.tried.Record? ==> (s.proven <==> s.env.boot == s.tried.side))
  }

  lemma StepKeeps(s: State, server: Server, t: Step)
    requires Inv(s, server) && Enabled(s, server, t)
    ensures Inv(Apply(s, server, t), server)
  {
    var z := Apply(s, server, t);
    match t
    case Unpacked => assert HoldsRelease(Slot(z, Other(z.kiosk.side)), server, z.kiosk.job.tag);
    case TryOther => assert HoldsRelease(Slot(s, Other(s.kiosk.side)), server, s.kiosk.job.tag);
    case _ =>
  }

  /** A fresh install: a whole release in the slot it boots, nothing tried. */
  ghost predicate Installed(s: State, server: Server) {
    && Proper(server)
    && s.kiosk.Off? && s.env.try.None? && s.tried.NoRecord? && Whole(Slot(s, s.env.boot), server)
  }

  ghost predicate Run(states: seq<State>, server: Server, steps: seq<Step>) {
    && |states| == |steps| + 1 && Installed(states[0], server)
    && forall i {:trigger steps[i]} :: 0 <= i < |steps| ==>
         Enabled(states[i], server, steps[i]) && states[i + 1] == Apply(states[i], server, steps[i])
  }

  lemma InstalledKeeps(s: State, server: Server)
    requires Installed(s, server)
    ensures Inv(s, server)
  {}

  lemma Taken(states: seq<State>, server: Server, steps: seq<Step>, i: nat)
    requires Run(states, server, steps) && i < |steps|
    ensures Enabled(states[i], server, steps[i]) && states[i + 1] == Apply(states[i], server, steps[i])
  {}

  lemma {:induction false} RunKeeps(states: seq<State>, server: Server, steps: seq<Step>, n: nat)
    requires Run(states, server, steps) && n < |states|
    ensures Inv(states[n], server)
  {
    if n == 0 {
      InstalledKeeps(states[0], server);
    } else {
      RunKeeps(states, server, steps, n - 1);
      Taken(states, server, steps, n - 1);
      StepKeeps(states[n - 1], server, steps[n - 1]);
    }
  }

  /** A step writes to no slot but the one that is neither sc_boot's nor running. */
  lemma StepLeaves(s: State, server: Server, t: Step)
    requires Inv(s, server) && Enabled(s, server, t)
    ensures Slot(Apply(s, server, t), s.env.boot) == Slot(s, s.env.boot)
    ensures s.kiosk.Up? ==> Slot(Apply(s, server, t), s.kiosk.side) == Slot(s, s.kiosk.side)
  {}

  /** At every step of every run, power cuts anywhere: sc_boot names a slot
      holding one whole release; and what the step after writes to is the other
      slot than sc_boot's and the running one. */
  lemma SafeAtEveryStep(states: seq<State>, server: Server, steps: seq<Step>, n: nat)
    requires Run(states, server, steps) && n < |states|
    ensures Whole(Slot(states[n], states[n].env.boot), server)
    ensures n < |steps| ==>
              && Slot(states[n + 1], states[n].env.boot) == Slot(states[n], states[n].env.boot)
              && (states[n].kiosk.Up? ==>
                    Slot(states[n + 1], states[n].kiosk.side) == Slot(states[n], states[n].kiosk.side))
  {
    RunKeeps(states, server, steps, n);
    if n < |steps| {
      StepLeaves(states[n], server, steps[n]);
    }
  }

  // ── What sc_try names ──────────────────────────────────────────────────────

  /** No update was started with a try still set. */
  ghost predicate Careful(states: seq<State>, steps: seq<Step>, n: nat)
    requires n <= |steps| && n < |states|
  {
    forall i :: 0 <= i < n && steps[i].Start? ==> states[i].env.try.None?
  }

  /** A set sc_try names a slot holding one whole release, and nothing is at work
      on it. */
  ghost predicate TryWhole(s: State, server: Server) {
    s.env.try.Some? ==>
      && Whole(Slot(s, s.env.try.value), server)
      && (s.kiosk.Up? ==> !s.kiosk.job.Writing? && !s.kiosk.job.Written?)
  }

  lemma TryStaysWhole(s: State, server: Server, t: Step)
    requires Inv(s, server) && Enabled(s, server, t) && (t.Start? ==> s.env.try.None?) && TryWhole(s, server)
    ensures TryWhole(Apply(s, server, t), server)
  {}

  lemma TryStays(states: seq<State>, server: Server, steps: seq<Step>, i: nat)
    requires Run(states, server, steps) && i < |steps| && TryWhole(states[i], server)
    requires steps[i].Start? ==> states[i].env.try.None?
    ensures TryWhole(states[i + 1], server)
  {
    RunKeeps(states, server, steps, i);
    Taken(states, server, steps, i);
    TryStaysWhole(states[i], server, steps[i]);
  }

  /** A set sc_try does, while no update has been started with one set. */
  lemma {:induction false} TryIsWhole(states: seq<State>, server: Server, steps: seq<Step>, n: nat)
    requires Run(states, server, steps) && n < |states| && Careful(states, steps, n)
    ensures TryWhole(states[n], server)
  {
    if n > 0 {
      TryIsWhole(states, server, steps, n - 1);
      TryStays(states, server, steps, n - 1);
    }
  }

  /** The run goes on from state n, GRUB not reached, until a set sc_try names a
      slot that holds no whole release. */
  ghost predicate LosesTheTry(states: seq<State>, server: Server, steps: seq<Step>, n: nat, s: State) {
    && Run(states, server, steps) && n < |states| && states[n] == s
    && (forall i :: n <= i < |steps| ==> !steps[i].Boot?)
    && states[|steps|].env.try.Some? && !Whole(Slot(states[|steps|], states[|steps|].env.try.value), server)
  }

  /** A try made can be lost before GRUB gets to it if and only if the kiosk runs
      and its update has not got past TryOther: TryOther has failed with sc_try
      written, or an update has been started since. */
  lemma TryCanBeLost(states: seq<State>, server: Server, steps: seq<Step>)
    requires Run(states, server, steps)
    requires var s := states[|steps|]; s.env.try.Some? && Whole(Slot(s, s.env.try.value), server)
    ensures var s := states[|steps|];
            (exists states': seq<State>, steps': seq<Step> :: LosesTheTry(states', server, steps', |steps|, s))
            <==> s.kiosk.Up? && !s.kiosk.job.Set? && !s.kiosk.job.Restarting?
  {
    var s := states[|steps|];
    RunKeeps(states, server, steps, |steps|);
    if s.kiosk.Up? && !s.kiosk.job.Set? && !s.kiosk.job.Restarting? {
      var states', steps' := Losing(states, server, steps);
      assert LosesTheTry(states', server, steps', |steps|, s);
    } else {
      forall states': seq<State>, steps': seq<Step> ensures !LosesTheTry(states', server, steps', |steps|, s) {
        if Run(states', server, steps') && |steps| < |states'| && states'[|steps|] == s
           && forall i :: |steps| <= i < |steps'| ==> !steps'[i].Boot?
        {
          TryIsKept(states', server, steps', |steps|, |steps'|);
        }
      }
    }
  }

  /** A try is set and another update can be written over it. */
  predicate Exposed(s: State) {
    && s.env.try.Some? && s.kiosk.Up? && !s.kiosk.job.Set? && !s.kiosk.job.Restarting?
    && s.kiosk.settled && s.env.boot == s.kiosk.side && s.env.try.value == Other(s.kiosk.side)
  }

  /** The next thing unpack does is to empty the slot. */
  lemma Losing(states: seq<State>, server: Server, steps: seq<Step>)
    returns (states': seq<State>, steps': seq<Step>)
    requires Run(states, server, steps) && Exposed(states[|steps|])
    ensures LosesTheTry(states', server, steps', |steps|, states[|steps|])
  {
    states', steps' := Working(states, server, steps);
    assert Proper(server);
    EmptyIsNotWhole(server);
    states', steps' := Then(states', server, steps', Touch(map[]));
  }

  /** An update at work, started if it was not. */
  lemma Working(states: seq<State>, server: Server, steps: seq<Step>)
    returns (states': seq<State>, steps': seq<Step>)
    requires Run(states, server, steps) && Exposed(states[|steps|])
    ensures Run(states', server, steps') && |steps| <= |steps'|
    ensures states'[..|states|] == states && forall i :: |steps| <= i < |steps'| ==> !steps'[i].Boot?
    ensures Exposed(states'[|steps'|]) && states'[|steps'|].kiosk.job.Writing?
  {
    states', steps' := states, steps;
    if states[|steps|].kiosk.job.Written? {
      states', steps' := Then(states', server, steps', Fail);
    }
    if states'[|steps'|].kiosk.job.Idle? {
      states', steps' := Then(states', server, steps', Start(""));
    }
  }

  lemma EmptyIsNotWhole(server: Server)
    requires Proper(server)
    ensures !Whole(map[], server)
  {
    var empty: Filesystem := map[];
    forall tag ensures !HoldsRelease(empty, server, tag) {
      if tag in server {
        var f := server[tag];
        assert IsRelease(f, tag);
        assert f[IndexOf(f, "version")].name !in empty;
      }
    }
  }

  /** A try that nothing is at work on. */
  ghost predicate TryKept(s: State, server: Server) {
    && s.env.try.Some? && Whole(Slot(s, s.env.try.value), server)
    && (s.kiosk.Up? ==> s.kiosk.job.Set? || s.kiosk.job.Restarting?)
  }

  lemma TryKeptStep(s: State, server: Server, t: Step)
    requires TryKept(s, server) && Enabled(s, server, t) && !t.Boot?
    ensures TryKept(Apply(s, server, t), server)
  {}

  lemma {:induction false} TryIsKept(states: seq<State>, server: Server, steps: seq<Step>, n: nat, m: nat)
    requires Run(states, server, steps) && n <= m < |states|
    requires forall i :: n <= i < m ==> !steps[i].Boot?
    requires TryKept(states[n], server)
    ensures TryKept(states[m], server)
    decreases m
  {
    if n < m {
      TryIsKept(states, server, steps, n, m - 1);
      TryKeptStep(states[m - 1], server, steps[m - 1]);
    }
  }

  /** It does happen: TryOther fails after its write, the user has the update
      installed again, and the slot sc_try names is emptied. */
  lemma TryLost(s: State, server: Server, tag: string, fs: Filesystem)
    requires Installed(s, server) && s.env.boot == A && HoldsRelease(fs, server, tag)
    ensures exists states: seq<State>, steps: seq<Step> ::
              && Run(states, server, steps) && states[0] == s
              && states[|steps|].env == Env(A, Some(B)) && !Whole(states[|steps|].b, server)
  {
    var states, steps := Unpacking(s, server, tag, fs);
    states, steps := Then(states, server, steps, TryOtherFails);
    states, steps := Then(states, server, steps, Start(tag));
    assert states[|steps|] == State(Env(A, Some(B)), s.a, fs, Up(A, true, false, Writing(tag)), s.tried, s.failed, s.proven);
    EmptyIsNotWhole(server);
    states, steps := Then(states, server, steps, Touch(map[]));
  }

  /** A try is made once: whatever happens to the boot that makes it, short of
      marking itself good, the next one is of the known-good slot. */
  lemma {:induction false} TriedOnce(states: seq<State>, server: Server, steps: seq<Step>, n: nat, m: nat)
    requires Run(states, server, steps) && n < m < |steps|
    requires steps[n].Boot? && steps[m].Boot?
    requires forall i :: n < i < m ==> !steps[i].Boot? && !steps[i].MarkGood? && !SetsTry(steps[i])
    ensures states[n + 1].env == states[m].env == states[n].env.(try := None)
    ensures Chosen(states[m].env) == states[n].env.boot
  {
    assert states[n + 1] == Apply(states[n], server, steps[n]);
    EnvStays(states, server, steps, n + 1, m);
  }

  predicate SetsTry(t: Step) {
    t.TryOther? || t.TryOtherFails?
  }

  lemma {:induction false} EnvStays(states: seq<State>, server: Server, steps: seq<Step>, n: nat, m: nat)
    requires Run(states, server, steps) && n <= m < |states|
    requires forall i :: n <= i < m ==> !steps[i].Boot? && !steps[i].MarkGood? && !SetsTry(steps[i])
    ensures states[m].env == states[n].env
    decreases m
  {
    if n < m {
      EnvStays(states, server, steps, n, m - 1);
      assert states[m] == Apply(states[m - 1], server, steps[m - 1]);
    }
  }

  /** When Settle says that a boot is the release last tried, the running slot
      holds that very release. */
  lemma SettledOnTheRelease(states: seq<State>, server: Server, steps: seq<Step>, n: nat)
    requires Run(states, server, steps) && n < |states| && SettlesOk(states[n])
    ensures HoldsRelease(Slot(states[n], states[n].kiosk.side), server, states[n].tried.tag)
  {
    RunKeeps(states, server, steps, n);
  }

  /** Settle takes a boot from the other slot to mean that the release tried
      never came up. That is so if and only if sc_boot does not name the slot it
      was tried in. */
  lemma BlamedRightly(states: seq<State>, server: Server, steps: seq<Step>, n: nat)
    requires Run(states, server, steps) && n < |steps| && steps[n].Settle?
    requires states[n].tried.Record? && states[n].tried.side != states[n].kiosk.side
    ensures states[n + 1].failed == states[n].tried.tag
    ensures !states[n].proven <==> states[n].env.boot != states[n].tried.side
  {
    RunKeeps(states, server, steps, n);
  }

  /** The running boot is the release tried, and Kept runs. */
  predicate Keeps(s: State, t: Step) {
    t.Keep? && SettlesOk(s)
  }

  lemma TriedStep(s: State, server: Server, t: Step)
    requires Enabled(s, server, t)
    ensures var z := Apply(s, server, t);
            && (z.tried.Record? && !t.Remember? ==> s.tried == z.tried && !Keeps(s, t))
            && (Keeps(s, t) || (s.tried.NoRecord? && s.failed == "" && !t.Remember?) ==> z.tried.NoRecord? && z.failed == "")
            && (t.Remember? ==> z.tried == Record(s.kiosk.job.tag, Other(s.kiosk.side)))
  {}

  lemma RecordStep(s: State, server: Server, t: Step)
    requires Enabled(s, server, t) && !t.Remember? && !Keeps(s, t) && !Blames(s, t)
    ensures Apply(s, server, t).tried == s.tried && Apply(s, server, t).failed == s.failed
  {}

  /** Settle finds that the release tried did not come up. */
  predicate Blames(s: State, t: Step) {
    t.Settle? && s.kiosk.Up? && s.tried.Record? && s.tried.side != s.kiosk.side
  }

  /** A try stays on record, and what failed, until it is kept in its own boot, found
      to have failed, or another is made. */
  lemma {:induction false} TryStaysOnRecord(states: seq<State>, server: Server, steps: seq<Step>, n: nat, m: nat)
    requires Run(states, server, steps) && n <= m < |states|
    requires forall i {:trigger steps[i]} :: n <= i < m ==>
               !steps[i].Remember? && !Keeps(states[i], steps[i]) && !Blames(states[i], steps[i])
    ensures states[m].tried == states[n].tried && states[m].failed == states[n].failed
    decreases m
  {
    if n < m {
      TryStaysOnRecord(states, server, steps, n, m - 1);
      Taken(states, server, steps, m - 1);
      RecordStep(states[m - 1], server, steps[m - 1]);
    }
  }

  /** Where a remembered try was remembered: the update of that release, and no
      other since, and it has not been kept since. */
  lemma {:induction false} TriedSince(states: seq<State>, server: Server, steps: seq<Step>, n: nat) returns (r: nat)
    requires Run(states, server, steps) && n < |states| && states[n].tried.Record?
    ensures r < n && steps[r].Remember? && Enabled(states[r], server, steps[r])
    ensures states[n].tried == Record(states[r].kiosk.job.tag, Other(states[r].kiosk.side))
    ensures forall i :: r < i < n ==> !steps[i].Remember? && !Keeps(states[i], steps[i])
  {
    Taken(states, server, steps, n - 1);
    TriedStep(states[n - 1], server, steps[n - 1]);
    if steps[n - 1].Remember? {
      r := n - 1;
    } else {
      r := TriedSince(states, server, steps, n - 1);
    }
  }

  /** A release is blamed only if it was tried, and not kept since. */
  lemma BlamedWasTried(states: seq<State>, server: Server, steps: seq<Step>, n: nat) returns (r: nat)
    requires Run(states, server, steps) && n < |steps| && steps[n].Settle? && states[n + 1].failed != states[n].failed
    ensures r < n && steps[r].Remember? && Enabled(states[r], server, steps[r])
    ensures states[n + 1].failed == states[r].kiosk.job.tag
    ensures forall i :: r < i < n ==> !steps[i].Remember? && !Keeps(states[i], steps[i])
  {
    Taken(states, server, steps, n);
    r := TriedSince(states, server, steps, n);
  }

  /** Once Kept has run in a boot of the release tried, no release is blamed until
      another is tried. */
  lemma {:induction false} KeptIsNotBlamed(states: seq<State>, server: Server, steps: seq<Step>, n: nat, m: nat)
    requires Run(states, server, steps) && n < m < |states| && Keeps(states[n], steps[n])
    requires forall i :: n < i < m ==> !steps[i].Remember?
    ensures states[m].tried.NoRecord? && states[m].failed == ""
    decreases m
  {
    Taken(states, server, steps, m - 1);
    TriedStep(states[m - 1], server, steps[m - 1]);
    if n < m - 1 {
      KeptIsNotBlamed(states, server, steps, n, m - 1);
    }
  }

  /** And it can be wrong: an update that comes up and is marked good, the power
      cut before Kept, and the next boot from the menu's "previous version" ends
      with the good release remembered as failed. */
  lemma BlamedWrongly(s: State, server: Server, tag: string, fs: Filesystem)
    requires Installed(s, server) && s.env.boot == A && HoldsRelease(fs, server, tag)
    ensures exists states: seq<State>, steps: seq<Step> ::
              && Run(states, server, steps) && states[0] == s
              && states[|steps|].failed == tag && states[|steps|].proven && states[|steps|].env.boot == B
              && HoldsRelease(states[|steps|].b, server, tag)
  {
    var states, steps := Updated(s, server, tag, fs);
    states, steps := Then(states, server, steps, PowerCut);
    states, steps := Then(states, server, steps, Boot(false));
    states, steps := Then(states, server, steps, Settle);
    assert states[|steps|] == State(Env(A, None), s.a, fs, Up(B, true, false, Idle), Record(tag, B), s.failed, false);
    states, steps := Then(states, server, steps, MarkGood);
    states, steps := Then(states, server, steps, PowerCut);
    assert states[|steps|] == State(Env(B, None), s.a, fs, Off, Record(tag, B), s.failed, true);
    states, steps := Then(states, server, steps, Boot(true));
    states, steps := Then(states, server, steps, Settle);
  }

  /** An update that comes up is kept: the slot it is in is the known-good one, and
      nothing is left of the try. */
  lemma UpdateIsKept(s: State, server: Server, tag: string, fs: Filesystem)
    returns (states: seq<State>, steps: seq<Step>)
    requires Installed(s, server) && s.env.boot == A && HoldsRelease(fs, server, tag)
    ensures Run(states, server, steps) && states[0] == s
    ensures states[|steps|] == State(Env(B, None), s.a, fs, Up(B, true, true, Idle), NoRecord, "", true)
  {
    states, steps := Updated(s, server, tag, fs);
    states, steps := Then(states, server, steps, PowerCut);
    states, steps := Then(states, server, steps, Boot(false));
    states, steps := Then(states, server, steps, Settle);
    assert states[|steps|] == State(Env(A, None), s.a, fs, Up(B, true, false, Idle), Record(tag, B), s.failed, false);
    states, steps := Then(states, server, steps, MarkGood);
    states, steps := Then(states, server, steps, Keep);
  }

  /** One that does not is blamed by the boot after, of the slot it was made from;
      and another can be started. */
  lemma UpdateIsBlamed(s: State, server: Server, tag: string, fs: Filesystem, next: string)
    returns (states: seq<State>, steps: seq<Step>)
    requires Installed(s, server) && s.env.boot == A && HoldsRelease(fs, server, tag)
    ensures Run(states, server, steps) && states[0] == s
    ensures states[|steps|] == State(Env(A, None), s.a, fs, Up(A, true, false, Writing(next)), NoRecord, tag, false)
  {
    states, steps := Updated(s, server, tag, fs);
    states, steps := Then(states, server, steps, PowerCut);
    states, steps := Then(states, server, steps, Boot(false));
    states, steps := Then(states, server, steps, PowerCut);
    assert states[|steps|] == State(Env(A, None), s.a, fs, Off, Record(tag, B), s.failed, false);
    states, steps := Then(states, server, steps, Boot(false));
    states, steps := Then(states, server, steps, Settle);
    states, steps := Then(states, server, steps, Start(next));
  }

  /** An update as far as its slot's being written. */
  lemma Unpacking(s: State, server: Server, tag: string, fs: Filesystem)
    returns (states: seq<State>, steps: seq<Step>)
    requires Installed(s, server) && s.env.boot == A && HoldsRelease(fs, server, tag)
    ensures Run(states, server, steps) && states[0] == s
    ensures states[|steps|] == s.(b := fs, kiosk := Up(A, true, false, Written(tag)))
  {
    states, steps := [s], [];
    states, steps := Then(states, server, steps, Boot(false));
    states, steps := Then(states, server, steps, Settle);
    states, steps := Then(states, server, steps, Start(tag));
    assert states[|steps|] == s.(kiosk := Up(A, true, false, Writing(tag)));
    states, steps := Then(states, server, steps, Touch(fs));
    states, steps := Then(states, server, steps, Unpacked);
  }

  /** One that works, up to its restart. */
  lemma Updated(s: State, server: Server, tag: string, fs: Filesystem)
    returns (states: seq<State>, steps: seq<Step>)
    requires Installed(s, server) && s.env.boot == A && HoldsRelease(fs, server, tag)
    ensures Run(states, server, steps) && states[0] == s
    ensures states[|steps|] ==
            State(Env(A, Some(B)), s.a, fs, Up(A, true, false, Restarting(tag)), Record(tag, B), s.failed, false)
  {
    states, steps := Unpacking(s, server, tag, fs);
    states, steps := Then(states, server, steps, TryOther);
    states, steps := Then(states, server, steps, Remember);
  }

  lemma Then(states: seq<State>, server: Server, steps: seq<Step>, t: Step)
    returns (states': seq<State>, steps': seq<Step>)
    requires Run(states, server, steps) && Enabled(states[|steps|], server, t)
    ensures Run(states', server, steps') && |steps'| == |steps| + 1 && states'[..|states|] == states && steps'[..|steps|] == steps
    ensures states'[|steps'|] == Apply(states[|steps|], server, t)
  {
    states', steps' := states + [Apply(states[|steps|], server, t)], steps + [t];
  }

  /** What unpack leaves when it is done is what Unpacked waits for: given that
      a download with the release's checksum is the release. */
  lemma DoneIsUnpacked(before: Filesystem, after: Filesystem, d: Download, server: Server, tag: string)
    requires Acceptable(d.entries) && tag in server && Files(d.entries) == server[tag]
    requires Holding(after, Mkfs(before), Files(d.entries), |Files(d.entries)|)
    ensures HoldsRelease(after, server, tag)
  {
    var f := Files(d.entries);
    forall n | n in Mkfs(after) ensures n in Mkfs(before) {
      if n !in Mkfs(before) {
        assert Named(f, |f|, n);
        PendingNeverCollides("", n);
      }
    }
    assert Mkfs(after) == Mkfs(before);
  }
}
