/** USB drives and cards, mounted as they come and unmounted as they go
    (internal/usb/drives.go:52-171, 304-350, 393-405). What sysfs, blkid and
    mount answer are parameters of a poll. */
module Drives {
  import opened Helpers
  import opened Strings

  const ATTEMPTS := 3

  /** dir is the name of the directory under /media. */
  datatype Drive = Drive(disk: string, medium: string, dir: string)

  datatype Failure = Failure(medium: string, n: nat)

  /** History: one try at mounting a device. */
  datatype Attempt = Attempt(dev: string, medium: string, ok: bool)

  /** How many of a device's last tries in a row failed with this medium in. */
  function Streak(h: seq<Attempt>, dev: string, medium: string): nat {
    if h == [] then 0
    else
      var a := h[|h| - 1];
      if a.dev != dev then Streak(h[..|h| - 1], dev, medium)
      else if a.ok || a.medium != medium then 0
      else 1 + Streak(h[..|h| - 1], dev, medium)
  }

  lemma StreakOfMore(h: seq<Attempt>, a: Attempt, dev: string, medium: string)
    ensures Streak(h + [a], dev, medium) ==
            if a.dev != dev then Streak(h, dev, medium)
            else if a.ok || a.medium != medium then 0 else 1 + Streak(h, dev, medium)
  {
    assert (h + [a])[..|h|] == h;
  }

  /** One try more of a device is nothing to the others. */
  lemma OthersStreaks(h: seq<Attempt>, g: seq<Attempt>, dev: string)
    requires g == h || exists a: Attempt :: a.dev == dev && g == h + [a]
    ensures forall d, m :: d != dev ==> Streak(g, d, m) == Streak(h, d, m)
  {
    if g != h {
      var a: Attempt :| a.dev == dev && g == h + [a];
      forall d, m | d != dev ensures Streak(g, d, m) == Streak(h, d, m) {
        StreakOfMore(h, a, d, m);
      }
    }
  }

  /** Wanted, and mounted with the medium that is in. */
  predicate Stays(mounts: map<string, Drive>, want: map<string, string>, dev: string) {
    dev in mounts && dev in want && want[dev] == mounts[dev].medium
  }

  /** name, then name-2, name-3... */
  function Numbered(name: string, i: nat): string {
    if i < 2 then name else name + "-" + Itoa(i)
  }

  lemma NumberedOnce(name: string, i: nat, j: nat)
    requires 1 <= i < j
    ensures Numbered(name, i) != Numbered(name, j)
  {
    var b := Numbered(name, j);
    assert b[|name| + 1..] == Itoa(j);
    ItoaIsNumber(j);
    if i >= 2 {
      ItoaIsNumber(i);
      assert Numbered(name, i)[|name| + 1..] == Itoa(i);
    } else {
      assert |b| > |name|;
    }
  }

  /** freeName: the first of name, name-2, name-3... that is not taken. */
  method FreeName(taken: set<string>, name: string) returns (n: string, ghost at: nat)
    ensures n !in taken && at >= 1 && n == Numbered(name, at)
    ensures forall j :: 1 <= j < at ==> Numbered(name, j) in taken
  {
    n, at := name, 1;
    var i := 2;
    ghost var left := taken;
    while n in taken
      invariant i == at + 1 >= 2 && n == Numbered(name, at) && left <= taken
      invariant forall j :: 1 <= j < at ==> Numbered(name, j) in taken
      invariant forall j :: j >= at && Numbered(name, j) in taken ==> Numbered(name, j) in left
      decreases |left|
    {
      forall j | j > at ensures Numbered(name, j) != n {
        NumberedOnce(name, at, j);
      }
      left := left - {n};
      n := name + "-" + Itoa(i);
      i, at := i + 1, at + 1;
    }
  }

  /** The directory asked for, or the first numbered one that is not taken. */
  ghost predicate Named(dir: string, name: string, taken: set<string>) {
    exists at: nat :: at >= 1 && dir == Numbered(name, at) && dir !in taken
                      && forall j :: 1 <= j < at ==> Numbered(name, j) in taken
  }

  class Drives {
    var held: set<string>
    var mounts: map<string, Drive>
    var failed: map<string, Failure>
    ghost var tries: seq<Attempt>

    /** Directories are no two drives'; and a count is that of the tries. */
    ghost predicate Valid()
      reads this
    {
      && (forall d, e :: d in mounts && e in mounts && d != e ==> mounts[d].dir != mounts[e].dir)
      && (forall d :: d in mounts ==> mounts[d].medium != "")
      && (forall d, m :: Streak(tries, d, m) == if d in failed && failed[d].medium == m then failed[d].n else 0)
      && (forall d :: d in failed ==> 1 <= failed[d].n <= ATTEMPTS)
    }

    /** No device of a disk being installed to is mounted. */
    ghost predicate LeavesHeldAlone()
      reads this
    {
      forall d :: d in mounts ==> mounts[d].disk !in held
    }

    constructor ()
      ensures Valid() && LeavesHeldAlone() && held == {} && mounts == map[] && tries == []
    {
      held, mounts, failed, tries := {}, map[], map[], [];
    }

    /** Hold: only that disk's drives go. */
    method Hold(disk: string)
      requires Valid() && LeavesHeldAlone()
      modifies `held, `mounts
      ensures Valid() && LeavesHeldAlone() && held == old(held) + {disk}
      ensures forall d :: d in mounts <==> d in old(mounts) && old(mounts)[d].disk != disk
      ensures forall d :: d in mounts ==> mounts[d] == old(mounts)[d]
    {
      held := held + {disk};
      var todo := mounts.Keys;
      while todo != {}
        invariant todo <= mounts.Keys
        invariant forall d :: d in mounts <==> d in old(mounts) && (old(mounts)[d].disk != disk || d in todo)
        invariant forall d :: d in mounts ==> mounts[d] == old(mounts)[d]
        invariant held == old(held) + {disk}
        decreases todo
      {
        var dev :| dev in todo;
        todo := todo - {dev};
        if mounts[dev].disk == disk {
          Unmount(dev);
        }
      }
    }

    method Unmount(dev: string)
      requires dev in mounts
      modifies `mounts
      ensures mounts == old(mounts) - {dev}
    {
      mounts := mounts - {dev};
    }

    function Taken(): set<string>
      reads this
    {
      set d | d in mounts :: mounts[d].dir
    }

    /** Each mounted device carries the medium just read for it. */
    ghost predicate Current(want: map<string, string>)
      reads this
    {
      forall d :: d in mounts ==> d in want && want[d] == mounts[d].medium
    }

    /** Poll's first loop: unmount what has gone. */
    method Drop(want: map<string, string>)
      requires Valid() && LeavesHeldAlone() && forall d :: d in want ==> want[d] != ""
      modifies `mounts
      ensures Valid() && LeavesHeldAlone() && Current(want)
      ensures forall d :: d in mounts <==> d in old(mounts) && d in want && want[d] == old(mounts)[d].medium
      ensures forall d :: d in mounts ==> mounts[d] == old(mounts)[d]
    {
      var todo := mounts.Keys;
      while todo != {}
        invariant todo <= mounts.Keys
        invariant forall d :: d in mounts <==>
                    d in old(mounts) && (d in todo || (d in want && want[d] == old(mounts)[d].medium))
        invariant forall d :: d in mounts ==> mounts[d] == old(mounts)[d]
        decreases todo
      {
        var dev :| dev in todo;
        todo := todo - {dev};
        var m := mounts[dev];
        if (if dev in want then want[dev] else "") != m.medium || m.disk in held {
          Unmount(dev);
        }
      }
    }

    /** A device is to be tried: not of a disk being installed to, and not failed
        three times in a row with this medium, as history has it. */
    ghost predicate Due(h: seq<Attempt>, dev: string, medium: string, diskOf: string -> string)
      reads this
    {
      diskOf(dev) !in held && Streak(h, dev, medium) < ATTEMPTS
    }

    /** Poll's second loop, for one device. */
    method Look(dev: string, medium: string, diskOf: string -> string, probe: string -> Option<string>)
      requires Valid() && LeavesHeldAlone() && medium != ""
      modifies `mounts, `failed, `tries
      ensures Valid() && LeavesHeldAlone()
      ensures var try := dev !in old(mounts) && Due(old(tries), dev, medium, diskOf);
              && tries == old(tries) + (if try then [Attempt(dev, medium, probe(dev).Some?)] else [])
              && (dev in mounts <==> dev in old(mounts) || (try && probe(dev).Some?))
      ensures forall d :: d != dev ==> (d in mounts <==> d in old(mounts))
      ensures forall d :: d in old(mounts) ==> mounts[d] == old(mounts)[d]
      ensures dev !in old(mounts) && dev in mounts ==>
                && mounts[dev].disk == diskOf(dev) && mounts[dev].medium == medium
                && Named(mounts[dev].dir, probe(dev).value, old(Taken()))
      ensures forall d :: d != dev ==> (d in failed <==> d in old(failed)) && (d in failed ==> failed[d] == old(failed)[d])
    {
      if dev in mounts {
        return;
      }
      var f := if dev in failed then failed[dev] else Failure("", 0);
      if f.medium != medium {
        f := Failure(medium, 0);
      }
      if f.n >= ATTEMPTS {
        return;
      }
      var disk := diskOf(dev);
      if disk in held {
        return;
      }
      var ok := Mount(dev, disk, medium, probe(dev));
      ghost var a := Attempt(dev, medium, ok);
      forall d, m ensures Streak(tries + [a], d, m) ==
                          if a.dev != d then Streak(tries, d, m)
                          else if a.ok || a.medium != m then 0 else 1 + Streak(tries, d, m) {
        StreakOfMore(tries, a, d, m);
      }
      tries := tries + [a];
      if !ok {
        failed := failed[dev := Failure(medium, f.n + 1)];
      } else {
        failed := failed - {dev};
      }
    }

    /** mount: name is the directory asked for, or none if there is no file system
        here that can be mounted. */
    method Mount(dev: string, disk: string, medium: string, name: Option<string>) returns (ok: bool)
      requires Valid() && medium != "" && dev !in mounts
      modifies `mounts
      ensures Valid() && ok == name.Some?
      ensures if ok then
                && dev in mounts && mounts[dev].disk == disk && mounts[dev].medium == medium
                && Named(mounts[dev].dir, name.value, old(Taken()))
                && mounts == old(mounts)[dev := mounts[dev]]
              else mounts == old(mounts)
    {
      if name.None? {
        return false;
      }
      var dir, at := FreeName(Taken(), name.value);
      assert forall d :: d in mounts ==> mounts[d].dir in Taken();
      assert Named(dir, name.value, Taken());
      mounts := mounts[dev := Drive(disk, medium, dir)];
      return true;
    }

    /** Poll's second loop. */
    method MountDue(want: map<string, string>, diskOf: string -> string, probe: string -> Option<string>)
      requires Valid() && LeavesHeldAlone() && Current(want) && forall d :: d in want ==> want[d] != ""
      modifies `mounts, `failed, `tries
      ensures Valid() && LeavesHeldAlone() && Current(want)
      ensures forall d :: d in want ==>
                (d in mounts <==> d in old(mounts) || (Due(old(tries), d, want[d], diskOf) && probe(d).Some?))
      ensures forall d :: d in old(mounts) ==> d in mounts && mounts[d] == old(mounts)[d]
      ensures forall d :: d in mounts && d !in old(mounts) ==> mounts[d].disk == diskOf(d)
    {
      var todo := want.Keys;
      while todo != {}
        invariant todo <= want.Keys && Valid() && LeavesHeldAlone() && Current(want)
        invariant forall d :: d in todo ==> (d in mounts <==> d in old(mounts))
        invariant forall d :: d in want && d !in todo ==>
                    (d in mounts <==> d in old(mounts) || (Due(old(tries), d, want[d], diskOf) && probe(d).Some?))
        invariant forall d :: d in old(mounts) ==> d in mounts && mounts[d] == old(mounts)[d]
        invariant forall d :: d in mounts && d !in old(mounts) ==> mounts[d].disk == diskOf(d)
        invariant forall d, m :: d in todo ==> Streak(tries, d, m) == Streak(old(tries), d, m)
        decreases todo
      {
        var dev :| dev in todo;
        todo := todo - {dev};
        ghost var before := tries;
        Look(dev, want[dev], diskOf, probe);
        OthersStreaks(before, tries, dev);
      }
    }

    /** Poll: want is what present has listed, with the media just read. A device
        stays mounted, or comes to be, just when it is wanted and was with this
        medium, or is due and has a file system that can be mounted. A fourth try
        in a row is never made. */
    method Poll(want: map<string, string>, diskOf: string -> string, probe: string -> Option<string>)
      requires Valid() && LeavesHeldAlone() && forall d :: d in want ==> want[d] != ""
      modifies `mounts, `failed, `tries
      ensures Valid() && LeavesHeldAlone() && Current(want)
      ensures forall d :: d in want ==>
                (d in mounts <==> Stays(old(mounts), want, d) || (Due(old(tries), d, want[d], diskOf) && probe(d).Some?))
      ensures forall d :: d in mounts ==>
                if Stays(old(mounts), want, d) then mounts[d] == old(mounts)[d] else mounts[d].disk == diskOf(d)
      ensures forall d, m :: Streak(tries, d, m) <= ATTEMPTS
    {
      Drop(want);
      MountDue(want, diskOf, probe);
    }
  }
}
