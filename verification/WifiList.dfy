/** The wireless dialog's list (internal/ui/wifi.go:148-188): networks, then the
    hidden network's row; a selection; a window of ROWS rows over them. */
module WifiList {
  import opened Helpers

  const ROWS := 7

  function Distance(a: int, b: int): nat {
    if a < b then b - a else a - b
  }

  /** The selection is a row, it is in the window, and the window shows as many
      rows as it can. */
  predicate InView(n: nat, sel: int, top: int) {
    && 0 <= sel <= n && top <= sel < top + ROWS
    && 0 <= top && (top == 0 || top + ROWS <= n + 1)
  }

  /** Where the selection goes: to the network it was on, else to the first. */
  predicate Follows(was: seq<string>, sel: nat, now: seq<string>, sel': nat)
  {
    if sel >= |was| && was != [] then sel' == |now|
    else if sel < |was| && was[sel] in now then sel' < |now| && now[sel'] == was[sel]
    else if sel < |was| then sel' == 0
    else "" !in now ==> sel' == 0
  }

  class List {
    var networks: seq<string>
    var sel: int
    var top: int

    predicate Valid() reads this {
      InView(|networks|, sel, top)
    }

    constructor ()
      ensures Valid() && networks == [] && sel == 0 && top == 0
    {
      networks, sel, top := [], 0, 0;
    }

    /** scroll: the least move of the window that brings the selection in. */
    method Scroll()
      requires 0 <= sel <= |networks| && 0 <= top
      modifies `top
      ensures Valid()
      ensures forall t :: InView(|networks|, sel, t) ==> Distance(old(top), top) <= Distance(old(top), t)
    {
      if sel < top {
        top := sel;
      }
      if sel >= top + ROWS {
        top := sel - ROWS + 1;
      }
      top := Clamp(top, 0, if |networks| + 1 - ROWS < 0 then 0 else |networks| + 1 - ROWS);
    }

    method Move(d: int)
      requires Valid()
      modifies `sel, `top
      ensures Valid()
      ensures sel == Clamp(old(sel) + d, 0, |networks|)
      ensures InView(|networks|, sel, old(top)) ==> top == old(top)
    {
      sel := Clamp(sel + d, 0, |networks|);
      Scroll();
    }

    method SetNetworks(nets: seq<string>)
      requires Valid()
      modifies this
      ensures Valid() && networks == nets
      ensures Follows(old(networks), old(sel), nets, sel)
    {
      var cur, hidden := "", sel >= |networks| && |networks| > 0;
      if sel < |networks| {
        cur := networks[sel];
      }
      networks, sel := nets, 0;
      for i := 0 to |nets|
        invariant networks == nets && top == old(top)
        invariant if cur in nets[..i] then 0 <= sel < i && nets[sel] == cur else sel == 0
      {
        if nets[i] == cur {
          sel := i;
        }
      }
      assert nets[..|nets|] == nets;
      if hidden {
        sel := |nets|;
      }
      Scroll();
    }
  }
}
