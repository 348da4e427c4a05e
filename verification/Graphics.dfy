/** Safe graphics (internal/bootenv/bootenv.go:182-233, 301-377): the display
    adapters left on the firmware framebuffer, and the try their driver gets
    every so often. */
module Graphics {
  import opened Helpers
  import opened Strings

  const MAX := 6
  const RETRY_EVERY := 10

  type Sets = seq<string>

  /** strings.Join by commas. */
  function Join(xs: Sets): string {
    if xs == [] then "" else if |xs| == 1 then xs[0] else xs[0] + "," + Join(xs[1..])
  }

  predicate NoCommas(xs: Sets) {
    forall i :: 0 <= i < |xs| ==> ',' !in xs[i]
  }

  lemma {:induction false} SplitOfJoin(xs: Sets)
    requires NoCommas(xs) && xs != []
    ensures Split(Join(xs), ',') == xs
  {
    if |xs| == 1 {
      SplitNone(xs[0], ',');
    } else {
      SplitOfJoin(xs[1..]);
      SplitFirst(xs[0], ',', Join(xs[1..]));
    }
  }

  lemma {:induction false} SplitHasNoCommas(s: string)
    ensures NoCommas(Split(s, ','))
    decreases |s|
  {
    var i := Index(s, ',');
    if i < |s| {
      SplitHasNoCommas(s[i + 1..]);
    }
  }

  /** A set of adapters a list can name. */
  predicate IsSet(x: string) {
    x != "" && x != "once" && ',' !in x
  }

  /** The sets a list names. */
  function Entries(list: string): set<string> {
    set x | x in Split(list, ',') && x != ""
  }

  // ── compactGPUs ────────────────────────────────────────────────────────────

  /** The first of each set, in order. */
  function Firsts(out: Sets, xs: Sets): Sets
    decreases |xs|
  {
    if xs == [] then out
    else Firsts(if xs[0] != "" && xs[0] != "once" && xs[0] !in out then out + [xs[0]] else out, xs[1..])
  }

  function Newest(out: Sets): Sets {
    if |out| > MAX then out[|out| - MAX..] else out
  }

  function Compacted(list: string): string {
    Join(Newest(Firsts([], Split(list, ','))))
  }

  method CompactGPUs(list: string) returns (r: string)
    ensures r == Compacted(list)
  {
    var out: Sets := [];
    var xs := Split(list, ',');
    for i := 0 to |xs|
      invariant Firsts(out, xs[i..]) == Firsts([], xs)
    {
      var s := xs[i];
      assert xs[i..][1..] == xs[i + 1..];
      if s != "" && s != "once" && s !in out {
        out := out + [s];
      }
    }
    if |out| > MAX {
      out := out[|out| - MAX..];
    }
    r := Join(out);
  }

  predicate Distinct(xs: Sets) {
    forall i, j :: 0 <= i < j < |xs| ==> xs[i] != xs[j]
  }

  predicate AreSets(xs: Sets) {
    forall i :: 0 <= i < |xs| ==> IsSet(xs[i])
  }

  lemma {:induction false} FirstsAre(out: Sets, xs: Sets)
    requires Distinct(out) && AreSets(out) && NoCommas(xs)
    ensures Distinct(Firsts(out, xs)) && AreSets(Firsts(out, xs)) && out <= Firsts(out, xs)
    ensures forall x :: x in Firsts(out, xs) <==> x in out || (x in xs && IsSet(x))
    decreases |xs|
  {
    if xs != [] {
      var o := if xs[0] != "" && xs[0] != "once" && xs[0] !in out then out + [xs[0]] else out;
      assert IsSet(xs[0]) <==> xs[0] != "" && xs[0] != "once";
      FirstsAre(o, xs[1..]);
      assert forall x :: x in xs <==> x == xs[0] || x in xs[1..];
    }
  }

  /** A list with nothing to drop is left as it is. */
  lemma {:induction false} FirstsOfDistinct(out: Sets, xs: Sets)
    requires Distinct(out + xs) && AreSets(xs)
    ensures Firsts(out, xs) == out + xs
    decreases |xs|
  {
    if xs != [] {
      var all := out + xs;
      forall i | 0 <= i < |out| ensures out[i] != xs[0] {
        assert all[i] == out[i] && all[|out|] == xs[0];
      }
      assert (out + [xs[0]]) + xs[1..] == all;
      assert AreSets(xs[1..]) && IsSet(xs[0]);
      FirstsOfDistinct(out + [xs[0]], xs[1..]);
    } else {
      assert out + xs == out;
    }
  }

  /** What a compacted list splits into. */
  lemma SplitCompacted(list: string)
    ensures var out := Newest(Firsts([], Split(list, ',')));
            && Distinct(out) && AreSets(out) && |out| <= MAX
            && Split(Compacted(list), ',') == if out == [] then [""] else out
  {
    SplitHasNoCommas(list);
    FirstsAre([], Split(list, ','));
    var all := Firsts([], Split(list, ','));
    var out := Newest(all);
    assert Distinct(out) && AreSets(out);
    if out == [] {
      SplitNone("", ',');
    } else {
      SplitOfJoin(out);
    }
  }

  /** Compacting a compacted list finds the same sets again. */
  lemma FirstsOfCompacted(list: string)
    ensures Firsts([], Split(Compacted(list), ',')) == Newest(Firsts([], Split(list, ',')))
  {
    SplitCompacted(list);
    var out := Newest(Firsts([], Split(list, ',')));
    if out == [] {
      assert Firsts([], [""]) == Firsts([], [""][1..]) == [];
    } else {
      assert [] + out == out;
      FirstsOfDistinct([], out);
    }
  }

  /** At most six distinct sets; and compacting again changes nothing. */
  lemma CompactedTwice(list: string)
    ensures Compacted(Compacted(list)) == Compacted(list)
    ensures |Split(Compacted(list), ',')| <= MAX && Distinct(Split(Compacted(list), ','))
  {
    SplitCompacted(list);
    FirstsOfCompacted(list);
  }

  /** How many sets a list names. */
  function Count(list: string): nat {
    |Firsts([], Split(list, ','))|
  }

  /** Each of them is one of those listed; and all are while there are no more
      than six. */
  lemma CompactedKeeps(list: string, x: string)
    ensures x in Entries(Compacted(list)) ==> x in Entries(list) && x != "once"
    ensures Count(list) <= MAX ==> (x in Entries(Compacted(list)) <==> x in Entries(list) && x != "once")
  {
    SplitCompacted(list);
    SplitHasNoCommas(list);
    FirstsAre([], Split(list, ','));
    var all := Firsts([], Split(list, ','));
    var out := Newest(all);
    assert x in out ==> x in all;
    assert x in Entries(Compacted(list)) <==> x in out && x != "";
    if x in Split(list, ',') {
      var i :| 0 <= i < |Split(list, ',')| && Split(list, ',')[i] == x;
      assert ',' !in x;
    }
  }

  /** Where x comes first in xs, or its length. */
  function FirstAt(xs: Sets, x: string): (i: nat)
    ensures i <= |xs| && (i < |xs| ==> xs[i] == x) && x !in xs[..i]
  {
    if xs == [] || xs[0] == x then 0
    else
      var i := FirstAt(xs[1..], x);
      assert xs[..i + 1] == [xs[0]] + xs[1..][..i];
      i + 1
  }

  lemma {:induction false} FirstBy(xs: Sets, x: string, k: nat)
    requires k < |xs| && xs[k] == x
    ensures FirstAt(xs, x) <= k
  {
    if k > 0 && xs[0] != x {
      FirstBy(xs[1..], x, k - 1);
    }
  }

  /** all is in the order in which xs names them first. */
  predicate InOrder(all: Sets, xs: Sets) {
    forall i, j :: 0 <= i < j < |all| ==> FirstAt(xs, all[i]) < FirstAt(xs, all[j])
  }

  lemma FirstAtOf(a: Sets, x: string, b: Sets)
    requires x !in a
    ensures FirstAt(a + [x] + b, x) == |a|
  {
    FirstBy(a + [x] + b, x, |a|);
  }

  lemma {:induction false} FirstsInOrder(out: Sets, done: Sets, xs: Sets)
    requires InOrder(out, done + xs) && forall x :: x in out <==> x in done && x != "" && x != "once"
    ensures InOrder(Firsts(out, xs), done + xs)
    decreases |xs|
  {
    if xs != [] {
      var x, all := xs[0], done + xs;
      assert (done + [x]) + xs[1..] == all;
      if x != "" && x != "once" && x !in out {
        var o := out + [x];
        assert all == done + [x] + xs[1..];
        FirstAtOf(done, x, xs[1..]);
        forall i | 0 <= i < |out| ensures FirstAt(all, out[i]) < FirstAt(all, x) {
          Before(done, xs, out[i]);
        }
        FirstsInOrder(o, done + [x], xs[1..]);
      } else {
        FirstsInOrder(out, done + [x], xs[1..]);
      }
    }
  }

  lemma Before(done: Sets, xs: Sets, x: string)
    requires x in done
    ensures FirstAt(done + xs, x) < |done|
  {
    var k :| 0 <= k < |done| && done[k] == x;
    FirstBy(done + xs, x, k);
  }

  lemma Named(list: string)
    ensures Entries(list) - {"once"} == (set x | x in Firsts([], Split(list, ',')))
  {
    var xs := Split(list, ',');
    SplitHasNoCommas(list);
    FirstsAre([], xs);
    forall x ensures x in Entries(list) - {"once"} <==> x in Firsts([], xs) {
      if x in xs {
        var i :| 0 <= i < |xs| && xs[i] == x;
        assert ',' !in x;
      }
    }
  }

  lemma Listed(out: Sets)
    requires AreSets(out) && NoCommas(out)
    ensures Entries(Join(out)) == (set x | x in out)
  {
    if out == [] {
      SplitNone("", ',');
    } else {
      SplitOfJoin(out);
    }
  }

  /** The sets a list names, and those of them compacting keeps. */
  lemma NamedAndKept(list: string) returns (all: Sets, out: Sets)
    ensures all == Firsts([], Split(list, ',')) && out == Newest(all)
    ensures Distinct(all) && Distinct(out) && InOrder(all, Split(list, ','))
    ensures Entries(list) - {"once"} == (set x | x in all) && Entries(Compacted(list)) == (set x | x in out)
    ensures out != [] ==> Split(Compacted(list), ',') == out
  {
    var xs := Split(list, ',');
    all := Firsts([], xs);
    out := Newest(all);
    SplitCompacted(list);
    SplitHasNoCommas(list);
    FirstsAre([], xs);
    assert [] + xs == xs;
    FirstsInOrder([], [], xs);
    Named(list);
    assert forall i :: 0 <= i < |out| ==> IsSet(out[i]);
    Listed(out);
  }

  lemma IndexOf(xs: Sets, i: nat)
    requires Distinct(xs) && i < |xs|
    ensures FirstAt(xs, xs[i]) == i
  {
    FirstBy(xs, xs[i], i);
  }

  lemma Ordered(xs: Sets, all: Sets, i: nat, j: nat)
    requires InOrder(all, xs) && i < |all| && j < |all|
    ensures i < j <==> FirstAt(xs, all[i]) < FirstAt(xs, all[j])
  {
    if j < i {
      assert FirstAt(xs, all[j]) < FirstAt(xs, all[i]);
    }
  }

  /** The last of all that stay, as all has them. */
  lemma NewestIs(all: Sets, i: nat)
    requires i < |Newest(all)|
    ensures |Newest(all)| <= |all| && Newest(all)[i] == all[|all| - |Newest(all)| + i]
  {}

  lemma NewestAt(all: Sets, i: nat, j: nat)
    requires i < |Newest(all)| <= |all| && |all| - |Newest(all)| + i < j < |all|
    ensures Newest(all)[j - (|all| - |Newest(all)|)] == all[j]
  {
    NewestIs(all, j - (|all| - |Newest(all)|));
  }

  lemma NewestBehind(xs: Sets, all: Sets, x: string, y: string)
    requires InOrder(all, xs) && Distinct(Newest(all)) && x in Newest(all) && y in all
    requires FirstAt(xs, x) < FirstAt(xs, y)
    ensures y in Newest(all) && FirstAt(Newest(all), x) < FirstAt(Newest(all), y)
  {
    var out := Newest(all);
    var i :| 0 <= i < |out| && out[i] == x;
    var j :| 0 <= j < |all| && all[j] == y;
    NewestIs(all, i);
    Ordered(xs, all, |all| - |out| + i, j);
    NewestAt(all, i, j);
    IndexOf(out, i);
    IndexOf(out, j - (|all| - |out|));
  }

  /** The newest are kept, in their order: of two sets listed, the one listed first
      later is kept if the other is, and stays behind it. */
  lemma CompactedNewest(list: string, x: string, y: string)
    requires x in Entries(Compacted(list)) && y in Entries(list) && y != "once"
    requires FirstAt(Split(list, ','), x) < FirstAt(Split(list, ','), y)
    ensures y in Entries(Compacted(list))
    ensures FirstAt(Split(Compacted(list), ','), x) < FirstAt(Split(Compacted(list), ','), y)
  {
    var all, out := NamedAndKept(list);
    assert x in out && y in Entries(list) - {"once"} && y in all;
    NewestBehind(Split(list, ','), all, x, y);
  }

  lemma {:induction false} SizeOf(xs: Sets)
    requires Distinct(xs)
    ensures |set x | x in xs| == |xs|
  {
    if xs != [] {
      var (y, rest) := (xs[|xs| - 1], xs[..|xs| - 1]);
      SizeOf(rest);
      assert y !in rest;
      assert (set x | x in xs) == (set x | x in rest) + {y};
    } else {
      assert (set x | x in xs) == {};
    }
  }

  /** As many as there are sets listed, up to six. */
  lemma CompactedSize(list: string)
    ensures |Entries(Compacted(list))| == if |Entries(list) - {"once"}| < MAX then |Entries(list) - {"once"}| else MAX
  {
    var all, out := NamedAndKept(list);
    SizeOf(all);
    SizeOf(out);
  }

  lemma CompactedCount(list: string)
    ensures Count(Compacted(list)) <= MAX && "once" !in Entries(Compacted(list))
  {
    SplitCompacted(list);
    FirstsOfCompacted(list);
    CompactedKeeps(list, "once");
  }

  // ── Marking a boot good ────────────────────────────────────────────────────

  /** slot is "" when not installed. */
  datatype Boot = Boot(slot: string, kernel: string, gfxSafe: string)

  /** The variables of the boot environment that MarkGood knows, by name. */
  datatype Vars = Vars(
    gfxSafe: Option<string>, gfxSafeBoots: Option<string>, gfxFail: Option<string>, gfxTry: Option<string>,
    kPending: Option<string>, kernel: Option<string>, boot: Option<string>)

  /** A variable that is not set reads as "". */
  function Get(v: Option<string>): string {
    if v.Some? then v.value else ""
  }

  /** This boot is on the firmware framebuffer for want of a driver that took a
      boot down. */
  predicate IsLeftSafe(b: Boot, gpus: string) {
    gpus != "" && gpus in Split(b.gfxSafe, ',') && "once" !in Split(b.gfxSafe, ',')
  }

  method SafeGraphics(b: Boot, gpus: string) returns (r: bool)
    ensures r <==> "once" in Split(b.gfxSafe, ',') || (gpus != "" && gpus in Split(b.gfxSafe, ','))
  {
    var xs := Split(b.gfxSafe, ',');
    for i := 0 to |xs|
      invariant forall j :: 0 <= j < i ==> xs[j] != "once" && (xs[j] == "" || xs[j] != gpus)
    {
      if xs[i] == "once" || (xs[i] != "" && xs[i] == gpus) {
        return true;
      }
    }
    return false;
  }

  method LeftSafe(b: Boot, gpus: string) returns (r: bool)
    ensures r <==> IsLeftSafe(b, gpus)
  {
    if gpus == "" {
      return false;
    }
    var xs := Split(b.gfxSafe, ',');
    for i := 0 to |xs|
      invariant forall j :: 0 <= j < i ==> xs[j] != "once"
    {
      if xs[i] == "once" {
        return false;
      }
    }
    r := SafeGraphics(b, gpus);
  }

  function Without(xs: Sets, gpus: string): Sets {
    if xs == [] then []
    else (if xs[0] != "" && xs[0] != gpus then [xs[0]] else []) + Without(xs[1..], gpus)
  }

  function Retried(env: Vars, gpus: string): Vars {
    env.(gfxSafe := Some(Join(Without(Split(Get(env.gfxSafe), ','), gpus))), gfxFail := Some(gpus),
         gfxSafeBoots := None)
  }

  function Counted(env: Vars, gpus: string): Vars {
    var n := Atoi(Get(env.gfxSafeBoots));
    if n + 1 >= RETRY_EVERY then Retried(env, gpus) else env.(gfxSafeBoots := Some(Itoa(n + 1)))
  }

  function Marked(env: Vars, b: Boot, gpus: string, newLoader: bool): Vars {
    var e := env.(kPending := Some("0"), gfxTry := Some(""),
                  gfxSafe := if env.gfxSafe.Some? then Some(Compacted(env.gfxSafe.value)) else None);
    var e := if newLoader then e.(gfxSafe := Some(""), gfxFail := Some(""), gfxSafeBoots := None)
             else if IsLeftSafe(b, gpus) then Counted(e, gpus) else e;
    e.(kernel := if b.kernel == "new" || b.kernel == "lts" then Some(b.kernel) else e.kernel,
       boot := if b.slot != "" then Some(b.slot) else e.boot)
  }

  class Environment {
    var vars: Vars

    constructor (vars: Vars)
      ensures this.vars == vars
    {
      this.vars := vars;
    }

    /** markGood. */
    method MarkGood(b: Boot, gpus: string, newLoader: bool) returns (retry: bool)
      modifies this
      ensures vars == Marked(old(vars), b, gpus, newLoader)
      ensures retry <==> newLoader && IsLeftSafe(b, gpus)
      ensures vars.boot == if b.slot == "" then old(vars.boot) else Some(b.slot)
      ensures vars.kernel == if b.kernel in {"new", "lts"} then Some(b.kernel) else old(vars.kernel)
      ensures vars.kPending == Some("0") && vars.gfxTry == Some("")
    {
      retry := false;
      vars := vars.(kPending := Some("0"));
      vars := vars.(gfxTry := Some(""));
      if vars.gfxSafe.Some? {
        var list := CompactGPUs(vars.gfxSafe.value);
        vars := vars.(gfxSafe := Some(list));
      }
      var left := LeftSafe(b, gpus);
      if newLoader {
        retry := left;
        vars := vars.(gfxSafe := Some(""));
        vars := vars.(gfxFail := Some(""));
        vars := vars.(gfxSafeBoots := None);
      } else if left {
        var n := Atoi(Get(vars.gfxSafeBoots));
        if n + 1 >= RETRY_EVERY {
          RetryGPUs(gpus);
        } else {
          vars := vars.(gfxSafeBoots := Some(Itoa(n + 1)));
        }
      }
      if b.kernel == "new" || b.kernel == "lts" {
        vars := vars.(kernel := Some(b.kernel));
      }
      if b.slot != "" {
        vars := vars.(boot := Some(b.slot));
      }
    }

    method RetryGPUs(gpus: string)
      modifies this
      ensures vars == Retried(old(vars), gpus)
    {
      var keep: Sets := [];
      var xs := Split(Get(vars.gfxSafe), ',');
      for i := 0 to |xs|
        invariant vars == old(vars) && keep + Without(xs[i..], gpus) == Without(xs, gpus)
      {
        assert xs[i..][1..] == xs[i + 1..];
        if xs[i] != "" && xs[i] != gpus {
          keep := keep + [xs[i]];
        }
      }
      assert keep == Without(xs, gpus);
      vars := vars.(gfxSafe := Some(Join(keep)));
      vars := vars.(gfxFail := Some(gpus));
      vars := vars.(gfxSafeBoots := None);
    }
  }

  /** New boot rules give every adapter its driver back, with nothing held
      against it; a boot neither new nor left safe only loses what compacting
      drops. */
  lemma OtherBoots(env: Vars, b: Boot, gpus: string, newLoader: bool, others: string)
    requires newLoader || !IsLeftSafe(b, gpus)
    ensures var z := Marked(env, b, gpus, newLoader);
            && (newLoader ==> !IsLeftSafe(b.(gfxSafe := Get(z.gfxSafe)), others)
                              && z.gfxSafeBoots.None? && Get(z.gfxFail) == "")
            && (!newLoader ==> z.gfxFail == env.gfxFail && z.gfxSafeBoots == env.gfxSafeBoots
                               && (z.gfxSafe.Some? <==> env.gfxSafe.Some?)
                               && Entries(Get(z.gfxSafe)) <= Entries(Get(env.gfxSafe))
                               && (Count(Get(env.gfxSafe)) <= MAX ==>
                                     Entries(Get(z.gfxSafe)) == Entries(Get(env.gfxSafe)) - {"once"}))
  {
    SplitNone("", ',');
    if env.gfxSafe.Some? {
      CompactedSets(env.gfxSafe.value);
    } else {
      assert Entries("") == {};
    }
  }

  lemma CompactedSets(list: string)
    ensures Entries(Compacted(list)) <= Entries(list)
    ensures Count(list) <= MAX ==> Entries(Compacted(list)) == Entries(list) - {"once"}
  {
    forall x ensures x in Entries(Compacted(list)) ==> x in Entries(list)
             ensures Count(list) <= MAX ==> (x in Entries(Compacted(list)) <==> x in Entries(list) - {"once"})
    {
      CompactedKeeps(list, x);
    }
  }

  /** Whatever the environment, the adapters and the rules: the slot and the kernel
      that came up are the ones to keep, if there is a slot and the kernel is one of
      the two, and else stay what they were; nothing is pending any more. */
  lemma EveryBoot(env: Vars, b: Boot, gpus: string, newLoader: bool)
    ensures var z := Marked(env, b, gpus, newLoader);
            && (if b.slot == "" then z.boot == env.boot else z.boot == Some(b.slot))
            && (if b.kernel in {"new", "lts"} then z.kernel == Some(b.kernel) else z.kernel == env.kernel)
            && z.kPending == Some("0") && z.gfxTry == Some("")
  {}

  // ── Ten boots ──────────────────────────────────────────────────────────────

  lemma {:induction false} WithoutIs(xs: Sets, gpus: string)
    requires NoCommas(xs)
    ensures NoCommas(Without(xs, gpus))
    ensures forall x :: x in Without(xs, gpus) <==> x in xs && x != "" && x != gpus
  {
    if xs != [] {
      WithoutIs(xs[1..], gpus);
    }
  }

  /** Taken off the list: that set, and nothing else. */
  lemma RetriedList(env: Vars, gpus: string)
    ensures Entries(Get(Retried(env, gpus).gfxSafe)) == Entries(Get(env.gfxSafe)) - {gpus}
  {
    var xs := Split(Get(env.gfxSafe), ',');
    SplitHasNoCommas(Get(env.gfxSafe));
    WithoutIs(xs, gpus);
    var keep := Without(xs, gpus);
    if keep == [] {
      SplitNone("", ',');
    } else {
      SplitOfJoin(keep);
    }
  }

  /** Boots one after another, each left safe for the same adapters, with the boot
      loader's rules unchanged. GRUB passes the list on; what else it and the
      kiosk do to the environment between them is not to these two variables. */
  predicate SafeRun(envs: seq<Vars>, boots: seq<Boot>, gpus: string) {
    && |envs| == |boots| + 1
    && forall i :: 0 <= i < |boots| ==>
         && boots[i].gfxSafe == Get(envs[i].gfxSafe) && IsLeftSafe(boots[i], gpus)
         && Follows(Marked(envs[i], boots[i], gpus, false), envs[i + 1])
  }

  predicate Follows(e: Vars, f: Vars) {
    && Get(f.gfxSafe) == Get(e.gfxSafe)
    && Get(f.gfxSafeBoots) == Get(e.gfxSafeBoots)
  }

  /** One boot left safe. */
  lemma OneBoot(env: Vars, b: Boot, gpus: string, n: nat)
    requires b.gfxSafe == Get(env.gfxSafe) && IsLeftSafe(b, gpus) && Count(b.gfxSafe) <= MAX
    requires n < RETRY_EVERY && Get(env.gfxSafeBoots) == if n == 0 then "" else Itoa(n)
    ensures var z, list := Marked(env, b, gpus, false), Entries(b.gfxSafe);
            if n + 1 < RETRY_EVERY then
              && Get(z.gfxSafeBoots) == Itoa(n + 1)
              && Entries(Get(z.gfxSafe)) == list && Count(Get(z.gfxSafe)) <= MAX
              && z.gfxFail == env.gfxFail
            else
              && z.gfxSafeBoots == None && z.gfxFail == Some(gpus)
              && Entries(Get(z.gfxSafe)) == list - {gpus}
  {
    AtoiOfItoa(n);
    SplitNone("", ',');
    assert env.gfxSafe.Some?;
    var list := Compacted(env.gfxSafe.value);
    forall x ensures x in Entries(list) <==> x in Entries(b.gfxSafe) {
      CompactedKeeps(b.gfxSafe, x);
    }
    CompactedCount(b.gfxSafe);
    var e := env.(kPending := Some("0"), gfxTry := Some(""), gfxSafe := Some(list));
    RetriedList(e, gpus);
  }

  lemma {:induction false} UpTo(envs: seq<Vars>, boots: seq<Boot>, gpus: string, n: nat)
    requires SafeRun(envs, boots, gpus) && n <= |boots| && n < RETRY_EVERY
    requires Get(envs[0].gfxSafeBoots) == "" && Count(Get(envs[0].gfxSafe)) <= MAX
    ensures Get(envs[n].gfxSafeBoots) == if n == 0 then "" else Itoa(n)
    ensures Entries(Get(envs[n].gfxSafe)) == Entries(Get(envs[0].gfxSafe))
    ensures Count(Get(envs[n].gfxSafe)) <= MAX
  {
    if n > 0 {
      UpTo(envs, boots, gpus, n - 1);
      OneBoot(envs[n - 1], boots[n - 1], gpus, n - 1);
      assert Follows(Marked(envs[n - 1], boots[n - 1], gpus, false), envs[n]);
    }
  }

  /** The tenth boot. */
  lemma TheTenth(envs: seq<Vars>, boots: seq<Boot>, gpus: string)
    requires SafeRun(envs, boots, gpus) && |boots| >= RETRY_EVERY
    requires Get(envs[0].gfxSafeBoots) == "" && Count(Get(envs[0].gfxSafe)) <= MAX
    ensures var z := Marked(envs[9], boots[9], gpus, false);
            && Entries(Get(z.gfxSafe)) == Entries(Get(envs[0].gfxSafe)) - {gpus}
            && z.gfxFail == Some(gpus) && z.gfxSafeBoots == None && Follows(z, envs[10])
  {
    UpTo(envs, boots, gpus, 9);
    OneBoot(envs[9], boots[9], gpus, 9);
  }

  /** No more than ten boots in a row are left safe for the same adapters: the
      count stays below ten, and the tenth boot takes them off the list, and only
      them, counts them as having failed once, and forgets the count. */
  lemma TenBoots(envs: seq<Vars>, boots: seq<Boot>, gpus: string)
    requires SafeRun(envs, boots, gpus)
    requires Get(envs[0].gfxSafeBoots) == "" && Count(Get(envs[0].gfxSafe)) <= MAX
    ensures |boots| <= RETRY_EVERY
    ensures forall n :: 0 < n <= |boots| && n < RETRY_EVERY ==> Get(envs[n].gfxSafeBoots) == Itoa(n)
    ensures |boots| == RETRY_EVERY ==>
              var z := Marked(envs[9], boots[9], gpus, false);
              && Entries(Get(z.gfxSafe)) == Entries(Get(envs[0].gfxSafe)) - {gpus}
              && z.gfxFail == Some(gpus) && z.gfxSafeBoots == None && Get(envs[10].gfxSafeBoots) == ""
  {
    forall n | 0 < n <= |boots| && n < RETRY_EVERY ensures Get(envs[n].gfxSafeBoots) == Itoa(n) {
      UpTo(envs, boots, gpus, n);
    }
    if |boots| >= RETRY_EVERY {
      TheTenth(envs, boots, gpus);
      assert gpus !in Entries(Get(envs[10].gfxSafe));
      assert |boots| > RETRY_EVERY ==> IsLeftSafe(boots[10], gpus);
    }
  }
}
