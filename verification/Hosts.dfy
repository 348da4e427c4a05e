/** The server list (internal/ui/state.go:186-214, 332-457; internal/ui/loop.go:
    468-484; internal/ui/netdialog.go:243-247). An endpoint stands for an address
    and a port. */
module Hosts {
  import opened Helpers

  type Endpoint = nat

  datatype Host = Host(at: Endpoint, name: string, latency: int)

  /** No two entries are the same endpoint. */
  predicate Distinct(hosts: seq<Host>) {
    forall i, j :: 0 <= i < j < |hosts| ==> hosts[i].at != hosts[j].at
  }

  function Where(hosts: seq<Host>, at: Endpoint): (i: nat)
    ensures i <= |hosts|
    ensures i < |hosts| ==> hosts[i].at == at
    ensures forall j :: 0 <= j < i ==> hosts[j].at != at
  {
    if hosts == [] || hosts[0].at == at then 0 else 1 + Where(hosts[1..], at)
  }

  predicate Listed(hosts: seq<Host>, at: Endpoint) {
    Where(hosts, at) < |hosts|
  }

  /** The hosts a scan leaves, in order. */
  function Staying(hosts: seq<Host>, stay: set<Endpoint>): seq<Host> {
    if hosts == [] then []
    else
      var h := hosts[|hosts| - 1];
      Staying(hosts[..|hosts| - 1], stay) + if h.at in stay then [h] else []
  }

  lemma {:induction false} StayingIs(hosts: seq<Host>, stay: set<Endpoint>)
    requires Distinct(hosts)
    ensures Distinct(Staying(hosts, stay)) && |Staying(hosts, stay)| <= |hosts|
    ensures forall h :: h in Staying(hosts, stay) <==> h in hosts && h.at in stay
  {
    if hosts != [] {
      var pre := hosts[..|hosts| - 1];
      StayingIs(pre, stay);
      var h := hosts[|hosts| - 1];
      assert forall x :: x in hosts <==> x in pre || x == h;
      forall i | 0 <= i < |Staying(pre, stay)| ensures Staying(pre, stay)[i].at != h.at {
        assert Staying(pre, stay)[i] in pre;
      }
    }
  }

  function Ats(hosts: seq<Host>): set<Endpoint> {
    set h | h in hosts :: h.at
  }

  lemma OneMoreAt(hosts: seq<Host>, h: Host)
    ensures Ats(hosts + [h]) == Ats(hosts) + {h.at}
  {
    assert forall x :: x in hosts + [h] <==> x in hosts || x == h;
  }

  /** What HostFound makes of the list. */
  lemma FoundAt(before: seq<Host>, after: seq<Host>, h: Host)
    requires var i := Where(before, h.at);
             if i < |before| then |after| == |before| && after[i].at == h.at && after == before[i := after[i]]
             else after == before + [h]
    ensures Ats(after) == Ats(before) + {h.at}
  {
    var i := Where(before, h.at);
    if i < |before| {
      forall x | x in Ats(before) ensures x in Ats(after) {
        var k :| 0 <= k < |before| && before[k].at == x;
        assert after[k].at == x && after[k] in after;
      }
      forall x | x in Ats(after) ensures x in Ats(before) {
        var k :| 0 <= k < |after| && after[k].at == x;
        assert before[k].at == x && before[k] in before;
      }
      assert after[i] in after;
    } else {
      OneMoreAt(before, h);
    }
  }

  lemma StayingAts(hosts: seq<Host>, stay: set<Endpoint>)
    requires Distinct(hosts)
    ensures Ats(Staying(hosts, stay)) == Ats(hosts) * stay
  {
    StayingIs(hosts, stay);
    forall x | x in Ats(hosts) && x in stay ensures x in Ats(Staying(hosts, stay)) {
      var h :| h in hosts && h.at == x;
      assert h in Staying(hosts, stay);
    }
  }

  /** dropUnfound's loop: what stays, and the row of host cur, which is at among
      all, or sel if that goes. */
  method Sift(all: seq<Host>, found: set<Endpoint>, kept: set<Endpoint>, sel: int, cur: int, ghost at: nat)
    returns (out: seq<Host>, row: int)
    requires Distinct(all) && (if all == [] then cur == -1 else at < |all| && cur == all[at].at)
    ensures out == Staying(all, found + kept)
    ensures if all != [] && cur in found + kept then 0 <= row < |out| && row <= at && out[row] == all[at] else row == sel
  {
    out, row := [], sel;
    for i := 0 to |all|
      invariant out == Staying(all[..i], found + kept) && |out| <= i
      invariant if at < i && cur in found + kept then 0 <= row < |out| && row <= at && out[row] == all[at]
                else row == sel
    {
      assert all[..i + 1][..i] == all[..i] && all[..i + 1][i] == all[i];
      var k := all[i].at;
      if k in found || k in kept {
        if k == cur {
          row := |out|;
        }
        out := out + [all[i]];
      }
    }
    assert all[..|all|] == all;
  }

  class List {
    var hosts: seq<Host>
    var found: set<Endpoint>
    var kept: set<Endpoint>
    var sel: int
    var scroll: int

    /** What every run keeps. The cursor and the window's top can be at -1: they
        are, after a key on an empty list. */
    predicate Valid()
      reads this
    {
      && Distinct(hosts)
      && -1 <= sel && (sel < |hosts| || sel == 0)
      && -1 <= scroll <= |hosts|
    }

    constructor ()
      ensures Valid() && hosts == [] && sel == 0 && scroll == 0 && found == {} && kept == {}
    {
      hosts, found, kept, sel, scroll := [], {}, {}, 0, 0;
    }

    /** SelectedHost, by its row. */
    function Selected(): (i: nat)
      requires hosts != []
      reads this
      ensures i < |hosts|
    {
      if sel < 0 then 0 else if sel >= |hosts| then |hosts| - 1 else sel
    }

    /** VisibleHosts: never out of range, and the first of them is row From. */
    method VisibleHosts(rows: nat) returns (r: seq<Host>)
      requires Valid()
      ensures hosts == [] ==> r == []
      ensures |r| <= rows
      ensures forall i :: 0 <= i < |r| ==> From() + i < |hosts| && r[i] == hosts[From() + i]
      ensures |r| < rows ==> From() + |r| >= |hosts|
    {
      if |hosts| == 0 {
        return [];
      }
      var start := scroll;
      if start < 0 {
        start := 0;
      }
      var end := start + rows;
      if end > |hosts| {
        end := |hosts|;
      }
      assert start == From();
      r := hosts[start..end];
      assert forall i :: 0 <= i < |r| ==> r[i] == hosts[start + i];
    }

    function From(): nat
      reads this
    {
      if scroll < 0 then 0 else scroll
    }

    method AddHost(h: Host) returns (i: nat)
      requires Valid()
      modifies `hosts, `kept
      ensures Valid() && kept == old(kept) + {h.at}
      ensures i == Where(old(hosts), h.at) < |hosts| && hosts[i].at == h.at
      ensures if Listed(old(hosts), h.at) then
                var o := old(hosts)[i];
                hosts == old(hosts)[i := if o.name == "" then o.(name := h.name) else o]
              else hosts == old(hosts) + [h]
    {
      kept := kept + {h.at};
      for j := 0 to |hosts|
        invariant forall k :: 0 <= k < j ==> hosts[k].at != h.at
        invariant hosts == old(hosts)
      {
        if hosts[j].at == h.at {
          if hosts[j].name == "" {
            hosts := hosts[j := hosts[j].(name := h.name)];
          }
          return j;
        }
      }
      hosts := hosts + [h];
      return |hosts| - 1;
    }

    /** A scan's EventHostFound: its latency, and a name it has none of. */
    method HostFound(h: Host)
      requires Valid()
      modifies `hosts, `found
      ensures Valid() && found == old(found) + {h.at}
      ensures var i := Where(old(hosts), h.at);
              if i < |old(hosts)| then
                hosts == old(hosts)[i := if h.name == "" then h.(name := old(hosts)[i].name) else h]
              else hosts == old(hosts) + [h]
    {
      found := found + {h.at};
      for j := 0 to |hosts|
        invariant forall k :: 0 <= k < j ==> hosts[k].at != h.at
        invariant hosts == old(hosts)
      {
        if hosts[j].at == h.at {
          hosts := hosts[j := if h.name == "" then h.(name := hosts[j].name) else h];
          return;
        }
      }
      hosts := hosts + [h];
    }

    method Rescan()
      requires Valid()
      modifies `found
      ensures Valid() && found == {}
    {
      found := {};
    }

    /** EventScanComplete, dropUnfound: exactly the hosts found or kept stay, in
        order. The cursor stays on its host, if that does, else on its row; and in
        a window it was in, which stays where it is unless the cursor is above it. */
    method ScanComplete(ghost rows: nat)
      requires Valid() && rows >= 1
      modifies `hosts, `found, `sel, `scroll
      ensures Valid() && found == {} && 0 <= scroll <= sel && sel <= old(Max0(sel))
      ensures hosts == Staying(old(hosts), old(found) + kept)
      ensures old(hosts) != [] ==>
                var h := old(hosts[Selected()]);
                if h.at in old(found) + kept then sel < |hosts| && hosts[sel] == h
                else sel == Clamp(old(sel), 0, if |hosts| == 0 then 0 else |hosts| - 1)
      ensures scroll == if old(scroll) < 0 then 0 else if old(scroll) > sel then sel else old(scroll)
      ensures old(0 <= scroll <= sel < scroll + rows) ==> scroll <= sel < scroll + rows
    {
      StayingIs(hosts, found + kept);
      var cur: int := -1;
      if |hosts| > 0 {
        cur := hosts[Selected()].at;
      }
      var out, at := Sift(hosts, found, kept, sel, cur, if |hosts| > 0 then Selected() else 0);
      sel := at;
      hosts := out;
      found := {};
      sel := Clamp(sel, 0, if |hosts| == 0 then 0 else |hosts| - 1);
      scroll := Clamp(scroll, 0, sel);
    }

    /** A scan from beginning to end, whatever hosts it finds and in whatever
        order: the list is then of exactly those found and those kept. */
    method WholeScan(events: seq<Host>, ghost rows: nat)
      requires Valid() && rows >= 1
      modifies `hosts, `found, `sel, `scroll
      ensures Valid() && Ats(hosts) == Ats(events) + Ats(old(hosts)) * kept
    {
      Rescan();
      for i := 0 to |events|
        invariant Valid() && found == Ats(events[..i]) && Ats(hosts) == Ats(old(hosts)) + found
      {
        ghost var before := hosts;
        HostFound(events[i]);
        OneMoreAt(events[..i], events[i]);
        assert events[..i + 1] == events[..i] + [events[i]];
        FoundAt(before, hosts, events[i]);
      }
      assert events[..|events|] == events;
      StayingIs(hosts, found + kept);
      StayingAts(hosts, found + kept);
      ScanComplete(rows);
    }

    function Max0(i: int): int {
      if i < 0 then 0 else i
    }

    /** The cursor moves and the window follows it as far as it has to. */
    method MoveSelection(delta: int, rows: nat)
      requires Valid() && rows >= 1
      modifies `sel, `scroll
      ensures Valid() && scroll <= sel < scroll + rows
      ensures sel == if |hosts| == 0 then -1 else Clamp(old(sel) + delta, 0, |hosts| - 1)
      ensures old(scroll) <= sel < old(scroll) + rows ==> scroll == old(scroll)
    {
      sel := sel + delta;
      if sel < 0 {
        sel := 0;
      }
      if sel >= |hosts| {
        sel := |hosts| - 1;
      }
      if sel < scroll {
        scroll := sel;
      }
      if sel >= scroll + rows {
        scroll := sel - rows + 1;
      }
    }

    /** A click on the row-th row of the window. */
    method Click(row: nat)
      requires Valid()
      modifies `sel
      ensures Valid()
      ensures sel == if 0 <= scroll + row < |hosts| then scroll + row else old(sel)
      // A click lands on the row the user sees, just when the window's top is a
      // row; the renderer takes -1 for 0, and a click does not.
      ensures From() + row < |hosts| && old(sel) != From() + row ==> (sel == From() + row <==> scroll >= 0)
    {
      var abs := scroll + row;
      if abs < 0 || abs >= |hosts| {
        return;
      }
      sel := abs;
    }

    /** connect: a server typed in. */
    method Connect(h: Host)
      requires Valid()
      modifies `hosts, `kept, `sel
      ensures Valid() && 0 <= sel < |hosts| && hosts[sel].at == h.at
    {
      sel := AddHost(h);
    }

    /** A new port starts the list afresh. */
    method NewPort()
      requires Valid()
      modifies `hosts, `sel, `scroll
      ensures Valid() && hosts == [] && sel == 0 && scroll == 0
    {
      hosts, sel, scroll := [], 0, 0;
    }
  }

  /** How the window's top comes to be -1, and stays there: the down key while
      nothing has been found yet. A click on the second of the rows shown then
      picks the first host. */
  method KeyBeforeTheFirstHost(a: Host, b: Host, rows: nat) returns (l: List)
    requires rows >= 1 && a.at != b.at
    ensures fresh(l) && l.Valid() && l.hosts == [a, b] && l.scroll == -1 && l.From() == 0 && l.sel == 0
  {
    l := new List();
    l.MoveSelection(1, rows);
    l.HostFound(a);
    l.HostFound(b);
    l.Click(1);
  }
}
