/** The boot environment's file (internal/bootenv/bootenv.go:30-123): a header,
    name=value lines, and '#' up to the size it has always had. */
module Grubenv {
  import opened Helpers
  import opened Strings

  const HEADER := "# GRUB Environment Block\n"

  type Env = map<string, string>

  // ── Parse ──────────────────────────────────────────────────────────────────

  function ParseLine(env: Env, line: string): Env {
    if line == "" || line[0] == '#' then env
    else
      var i := Index(line, '=');
      if i < |line| then env[line[..i] := line[i + 1..]] else env
  }

  function ParseLines(env: Env, lines: seq<string>): Env
    decreases |lines|
  {
    if lines == [] then env else ParseLines(ParseLine(env, lines[0]), lines[1..])
  }

  function Parsed(b: string): Option<Env> {
    if HEADER <= b then Some(ParseLines(map[], Split(b[|HEADER|..], '\n'))) else None
  }

  method Parse(b: string) returns (r: Option<Env>)
    ensures r == Parsed(b)
  {
    if !(HEADER <= b) {
      return None;
    }
    var env: Env := map[];
    var lines := Split(b[|HEADER|..], '\n');
    for i := 0 to |lines|
      invariant ParseLines(env, lines[i..]) == ParseLines(map[], lines)
    {
      var line := lines[i];
      assert lines[i..][1..] == lines[i + 1..];
      if line == "" || line[0] == '#' {
        continue;
      }
      var e := Index(line, '=');
      if e < |line| {
        env := env[line[..e] := line[e + 1..]];
      }
    }
    return Some(env);
  }

  // ── Encode ─────────────────────────────────────────────────────────────────

  /** A string GRUB would have to escape, or that would end the line. */
  predicate Plain(s: string) {
    '\n' !in s && '\\' !in s
  }

  predicate CanStore(k: string, v: string) {
    k != "" && '=' !in k && Plain(k) && Plain(v)
  }

  predicate Storable(e: Env) {
    forall k :: k in e ==> CanStore(k, e[k])
  }

  function Line(k: string, v: string): string {
    k + "=" + v + "\n"
  }

  function Text(keys: seq<string>, e: Env): string
    requires forall k :: k in keys ==> k in e
  {
    if keys == [] then "" else Line(keys[0], e[keys[0]]) + Text(keys[1..], e)
  }

  lemma {:induction false} TextOfMore(keys: seq<string>, k: string, e: Env)
    requires k in e && forall x :: x in keys ==> x in e
    ensures Text(keys + [k], e) == Text(keys, e) + Line(k, e[k])
  {
    if keys != [] {
      assert (keys + [k])[1..] == keys[1..] + [k];
      TextOfMore(keys[1..], k, e);
    } else {
      assert Text([k], e) == Line(k, e[k]) + Text([k][1..], e);
    }
  }

  function Padding(n: nat): string {
    seq(n, _ => '#')
  }

  predicate Less(a: string, b: string) {
    b != "" && (a == "" || a[0] < b[0] || (a[0] == b[0] && Less(a[1..], b[1..])))
  }

  predicate Sorted(keys: seq<string>) {
    forall i, j :: 0 <= i < j < |keys| ==> Less(keys[i], keys[j])
  }

  lemma {:induction false} LessOrders(a: string, b: string, c: string)
    ensures !Less(a, a)
    ensures Less(a, b) && Less(b, c) ==> Less(a, c)
    ensures a == b || Less(a, b) || Less(b, a)
  {
    if a != "" && b != "" {
      LessOrders(a[1..], b[1..], if c == "" then c else c[1..]);
      assert a == [a[0]] + a[1..] && b == [b[0]] + b[1..];
    } else if a != "" {
      LessOrders(a[1..], b, c);
    }
  }

  /** sort.Strings of the keys, one more at a time. */
  method SortedKeys(e: Env) returns (keys: seq<string>)
    ensures Sorted(keys) && forall k :: k in keys <==> k in e
  {
    keys := [];
    var todo := e.Keys;
    while todo != {}
      invariant Sorted(keys) && todo <= e.Keys
      invariant forall k :: k in keys <==> k in e && k !in todo
      decreases todo
    {
      var k :| k in todo;
      todo := todo - {k};
      var i := |keys|;
      while i > 0 && Less(k, keys[i - 1])
        invariant 0 <= i <= |keys|
        invariant forall j :: i <= j < |keys| ==> Less(k, keys[j])
      {
        i := i - 1;
      }
      forall j | 0 <= j < i ensures Less(keys[j], k) {
        LessOrders(k, keys[i - 1], k);
        LessOrders(keys[j], keys[i - 1], k);
      }
      keys := keys[..i] + [k] + keys[i..];
    }
  }

  /** The same variables always make the same file: there is one sorted order. */
  lemma {:induction false} OneOrder(a: seq<string>, b: seq<string>)
    requires Sorted(a) && Sorted(b) && forall k :: k in a <==> k in b
    ensures a == b
  {
    assert a != [] ==> a[0] in a;
    assert b != [] ==> b[0] in b;
    if a != [] && b != [] {
      LeastIsFirst(a, b);
      LeastIsFirst(b, a);
      LessOrders(a[0], b[0], a[0]);
      var x, y := a[1..], b[1..];
      forall k ensures k in x <==> k in y {
        assert k in a <==> k == a[0] || k in x;
        assert k in b <==> k == b[0] || k in y;
        NotAgain(a, k);
        NotAgain(b, k);
      }
      OneOrder(x, y);
      assert a == [a[0]] + x && b == [b[0]] + y;
    }
  }

  lemma NotAgain(a: seq<string>, k: string)
    requires Sorted(a) && a != []
    ensures k == a[0] ==> k !in a[1..]
  {
    LessOrders(k, k, k);
    forall i | 0 <= i < |a[1..]| ensures a[1..][i] == a[i + 1] && Less(a[0], a[i + 1]) {}
  }

  lemma LeastIsFirst(a: seq<string>, b: seq<string>)
    requires Sorted(a) && a != [] && b != [] && forall k :: k in b ==> k in a
    ensures a[0] == b[0] || Less(a[0], b[0])
  {
    assert b[0] in a;
  }

  /** Encode: exactly size bytes, or an error when a variable cannot be stored
      or all of them do not fit. */
  method Encode(e: Env, size: nat) returns (r: Option<string>, ghost keys: seq<string>)
    ensures Sorted(keys) && forall k :: k in keys <==> k in e
    ensures r.Some? <==> Storable(e) && |HEADER| + |Text(keys, e)| <= size
    ensures r.Some? ==> r.value == HEADER + Text(keys, e) + Padding(size - |HEADER| - |Text(keys, e)|)
    ensures r.Some? ==> |r.value| == size
  {
    var order := SortedKeys(e);
    keys := order;
    var b := HEADER;
    for i := 0 to |order|
      invariant forall j :: 0 <= j < i ==> CanStore(order[j], e[order[j]])
      invariant b == HEADER + Text(order[..i], e)
    {
      var k := order[i];
      var v := e[k];
      if k == "" || '=' in k || '\n' in k || '\\' in k || '\n' in v || '\\' in v {
        assert k in e && !CanStore(k, e[k]);
        return None, keys;
      }
      assert order[..i + 1] == order[..i] + [k];
      TextOfMore(order[..i], k, e);
      b := b + (k + "=" + v + "\n");
    }
    assert order[..|order|] == order;
    if |b| > size {
      return None, keys;
    }
    r := Some(b + Padding(size - |b|));
  }

  // ── The round trip ─────────────────────────────────────────────────────────

  /** The environment with the keys' variables, all but those GRUB would read as
      comments. */
  function Put(env: Env, keys: seq<string>, e: Env): Env
    requires forall k :: k in keys ==> k in e && k != ""
    decreases |keys|
  {
    if keys == [] then env
    else
      assert keys[0] in keys && forall k :: k in keys[1..] ==> k in keys;
      Put(if keys[0][0] == '#' then env else env[keys[0] := e[keys[0]]], keys[1..], e)
  }

  lemma LineParses(env: Env, k: string, v: string)
    requires CanStore(k, v)
    ensures '\n' !in k + "=" + v
    ensures ParseLine(env, k + "=" + v) == if k[0] == '#' then env else env[k := v]
  {
    var line := k + "=" + v;
    assert line[0] == k[0];
    IndexIs(k, '=', v);
    assert line == k + ['='] + v;
    assert line[..|k|] == k && line[|k| + 1..] == v;
  }

  lemma {:induction false} TextParses(env: Env, keys: seq<string>, e: Env, pad: nat)
    requires Storable(e) && forall k :: k in keys ==> k in e
    ensures ParseLines(env, Split(Text(keys, e) + Padding(pad), '\n')) == Put(env, keys, e)
    decreases |keys|
  {
    var s := Text(keys, e) + Padding(pad);
    if keys == [] {
      assert s == Padding(pad);
      SplitNone(s, '\n');
      assert ParseLines(env, [s]) == ParseLines(ParseLine(env, s), [s][1..]);
    } else {
      var k := keys[0];
      var v := e[k];
      var rest := Text(keys[1..], e) + Padding(pad);
      LineParses(env, k, v);
      assert s == (k + "=" + v) + ['\n'] + rest;
      SplitFirst(k + "=" + v, '\n', rest);
      var lines := Split(s, '\n');
      assert lines[0] == k + "=" + v && lines[1..] == Split(rest, '\n');
      TextParses(ParseLine(env, lines[0]), keys[1..], e, pad);
    }
  }

  lemma {:induction false} PutHas(env: Env, keys: seq<string>, e: Env, k: string)
    requires forall x :: x in keys ==> x in e && x != ""
    ensures k in Put(env, keys, e) <==> k in env || (k in keys && k[0] != '#')
    ensures k in keys && k[0] != '#' ==> Put(env, keys, e)[k] == e[k]
    ensures k in env && k !in keys ==> Put(env, keys, e)[k] == env[k]
    decreases |keys|
  {
    if keys != [] {
      assert keys[0] in keys && forall x :: x in keys[1..] ==> x in keys;
      PutHas(if keys[0][0] == '#' then env else env[keys[0] := e[keys[0]]], keys[1..], e, k);
      assert k in keys <==> k == keys[0] || k in keys[1..];
    }
  }

  /** What Encode lays out Parse gives back, if and only if no variable's name
      starts with '#'. */
  lemma RoundTrip(e: Env, keys: seq<string>, pad: nat)
    requires Storable(e) && forall k :: k in keys <==> k in e
    ensures var r := Parsed(HEADER + Text(keys, e) + Padding(pad));
            r == Some(e) <==> forall k :: k in e ==> k[0] != '#'
  {
    var b := HEADER + Text(keys, e) + Padding(pad);
    assert b[|HEADER|..] == Text(keys, e) + Padding(pad);
    TextParses(map[], keys, e, pad);
    var r := Put(map[], keys, e);
    forall k ensures k in r <==> k in e && k[0] != '#'
             ensures k in r ==> r[k] == e[k] {
      PutHas(map[], keys, e, k);
    }
    if forall k :: k in e ==> k[0] != '#' {
      assert r == e;
    }
  }

  /** No name Parse gives starts with '#'. */
  lemma {:induction false} NoComments(env: Env, lines: seq<string>, k: string)
    requires forall x :: x in env ==> x == "" || x[0] != '#'
    requires k in ParseLines(env, lines)
    ensures k == "" || k[0] != '#'
    decreases |lines|
  {
    if lines != [] {
      NoComments(ParseLine(env, lines[0]), lines[1..], k);
    }
  }

  // ── Modify ─────────────────────────────────────────────────────────────────

  /** What the system calls answer: how many bytes WriteAt gets to write, and
      whether the file is found, writable, and synced and closed after. */
  datatype Calls = Calls(found: bool, writable: bool, written: nat, closed: bool)

  /** The variables can be stored in a file of that size. */
  ghost predicate Fits(e: Env, size: nat) {
    && Storable(e)
    && exists keys :: Sorted(keys) && (forall k :: k in keys <==> k in e) && |HEADER| + |Text(keys, e)| <= size
  }

  predicate NoComment(e: Env) {
    forall k :: k in e ==> k == "" || k[0] != '#'
  }

  /** Of a file of the same size that reads back as e, the first n bytes, and
      after them the file as it was. */
  ghost predicate Overwritten(was: string, now: string, n: nat, e: Env) {
    exists b: string ::
      && |b| == |was| && (NoComment(e) ==> Parsed(b) == Some(e))
      && now == if n < |b| then b[..n] + was[n..] else b
  }

  class File {
    var data: string

    /** Modify: the file never changes its length; where it works, it reads back
        as what fn made of its variables. Where it fails it may have changed the
        file all the same. fn may not name a variable '#...'. */
    method Modify(fn: Env -> Env, calls: Calls) returns (ok: bool)
      modifies this
      ensures |data| == |old(data)|
      ensures Parsed(old(data)).None? || !calls.found ==> !ok && data == old(data)
      ensures Parsed(old(data)).Some? && calls.found ==>
                var was := Parsed(old(data)).value;
                var e := fn(was);
                && (ok <==> e == was || (Fits(e, |data|) && calls.writable && calls.written >= |data| && calls.closed))
                && (ok && NoComment(e) ==> Parsed(data) == Some(e))
                && (e != was && Fits(e, |data|) && calls.writable ==> Overwritten(old(data), data, calls.written, e))
                && (e == was || !Fits(e, |data|) || !calls.writable ==> data == old(data))
    {
      if !calls.found {
        return false;
      }
      var env := Parse(data);
      if env.None? {
        return false;
      }
      var e := fn(env.value);
      if env.value == e {
        return true;
      }
      var b, keys := Encode(e, |data|);
      if b.None? {
        forall other: seq<string> | Sorted(other) && (forall k :: k in other <==> k in e) ensures other == keys {
          OneOrder(other, keys);
        }
        return false;
      }
      assert Fits(e, |data|);
      if !calls.writable {
        return false;
      }
      RoundTrip(e, keys, |data| - |HEADER| - |Text(keys, e)|);
      assert NoComment(e) ==> Parsed(b.value) == Some(e);
      if calls.written < |data| {
        data := b.value[..calls.written] + data[calls.written..];
        return false;
      }
      data := b.value;
      return calls.closed;
    }
  }
}
