/** The addresses a scan tries (internal/scanner/cidr.go), for IPv4. */
module Cidr {

  type Byte = b: int | 0 <= b < 256

  type Bytes = seq<Byte>

  /** An address as a number, most significant byte first. */
  function Value(s: Bytes): nat {
    if s == [] then 0 else Value(s[..|s| - 1]) * 256 + s[|s| - 1]
  }

  function Pow2(n: nat): (r: nat)
    ensures r > 0
  {
    if n == 0 then 1 else 2 * Pow2(n - 1)
  }

  lemma {:induction false} PowSum(m: nat, n: nat)
    ensures Pow2(m + n) == Pow2(m) * Pow2(n)
  {
    if m > 0 {
      PowSum(m - 1, n);
    }
  }

  lemma Pow256(n: nat)
    ensures Pow2(8) == 256 && Pow2(n + 8) == 256 * Pow2(n)
  {
    assert Pow2(8) == 2 * Pow2(7) == 4 * Pow2(6) == 8 * Pow2(5) == 16 * Pow2(4);
    assert Pow2(4) == 2 * Pow2(3) == 4 * Pow2(2) == 8 * Pow2(1);
    PowSum(8, n);
  }

  lemma AtLeast(q: nat, d: int)
    requires d >= 1
    ensures q * d >= q
  {
    assert q * d == q * (d - 1) + q;
  }

  lemma Grows(q: nat, c: nat, d: nat)
    requires c <= d
    ensures q * c <= q * d
  {
    assert q * d == q * c + q * (d - c);
  }

  lemma ModIs(x: nat, q: nat, k: nat, r: nat)
    requires q > 0 && x == q * k + r && r < q
    ensures x % q == r && x / q == k
  {
    var k', r' := x / q, x % q;
    assert q * (k - k') == q * k - q * k' == r' - r;
    assert q * (k' - k) == -(q * (k - k'));
    if k > k' {
      AtLeast(q, k - k');
    } else if k < k' {
      AtLeast(q, k' - k);
    }
  }

  // ── Counting ───────────────────────────────────────────────────────────────

  /** inc, one byte after another from the last. */
  function Next(s: Bytes): (r: Bytes)
    ensures |r| == |s|
  {
    if s == [] then []
    else if s[|s| - 1] == 255 then Next(s[..|s| - 1]) + [0]
    else s[..|s| - 1] + [s[|s| - 1] + 1]
  }

  lemma {:induction false} ValueFits(s: Bytes)
    ensures Value(s) < Pow2(8 * |s|)
  {
    if s != [] {
      ValueFits(s[..|s| - 1]);
      Pow256(8 * (|s| - 1));
    }
  }

  lemma {:induction false} ValueOf(t: Bytes, b: Byte)
    ensures Value(t + [b]) == Value(t) * 256 + b
  {
    assert (t + [b])[..|t|] == t;
  }

  lemma Carry(v: nat, q: nat)
    requires v < q
    ensures ((v + 1) % q) * 256 == (v * 256 + 256) % (256 * q)
  {
    var k := if v + 1 == q then 1 else 0;
    var r := if v + 1 == q then 0 else v + 1;
    ModIs(v + 1, q, k, r);
    ModIs(v * 256 + 256, 256 * q, k, r * 256);
  }

  lemma {:induction false} NextIsOneMore(s: Bytes)
    ensures Value(Next(s)) == (Value(s) + 1) % Pow2(8 * |s|)
  {
    if s != [] {
      var t, b := s[..|s| - 1], s[|s| - 1];
      Pow256(8 * |t|);
      ValueFits(s);
      assert Pow2(8 * |s|) == 256 * Pow2(8 * |t|);
      if b == 255 {
        NextIsOneMore(t);
        ValueFits(t);
        ValueOf(Next(t), 0);
        Carry(Value(t), Pow2(8 * |t|));
        assert Value(s) + 1 == Value(t) * 256 + 256;
      } else {
        ValueOf(t, b + 1);
        ValueFits(Next(s));
        ModIs(Value(s) + 1, Pow2(8 * |s|), 0, Value(s) + 1);
      }
    }
  }

  /** What inc's loop has done once it stops at byte i, or at -1. */
  function Stopped(s: Bytes, i: int): (r: Bytes)
    requires -1 <= i < |s| && (i >= 0 ==> s[i] != 255)
    ensures |r| == |s|
  {
    (if i >= 0 then s[..i] + [s[i] + 1] else []) + seq(|s| - 1 - i, _ => 0)
  }

  lemma {:induction false} NextStops(s: Bytes, i: int)
    requires -1 <= i < |s| && (i >= 0 ==> s[i] != 255) && forall k :: i < k < |s| ==> s[k] == 255
    ensures Next(s) == Stopped(s, i)
  {
    if i < |s| - 1 {
      var t := s[..|s| - 1];
      NextStops(t, i);
      assert i >= 0 ==> t[..i] == s[..i];
      assert Stopped(s, i) == Stopped(t, i) + [0];
    }
  }

  method Inc(ip: array<Byte>)
    modifies ip
    ensures ip[..] == Next(old(ip[..]))
  {
    ghost var was := ip[..];
    var i := ip.Length - 1;
    while i >= 0
      invariant -1 <= i < ip.Length
      invariant forall k :: 0 <= k <= i ==> ip[k] == was[k]
      invariant forall k :: i < k < ip.Length ==> ip[k] == 0 && was[k] == 255
      decreases i
    {
      ip[i] := (ip[i] as int + 1) % 256;
      if ip[i] != 0 {
        break;
      }
      i := i - 1;
    }
    NextStops(was, i);
    assert ip[..] == Stopped(was, i);
  }

  // ── Bits ───────────────────────────────────────────────────────────────────

  /** & and |, bit by bit. */
  function And(a: nat, b: nat): nat {
    if a == 0 || b == 0 then 0 else (a % 2) * (b % 2) + 2 * And(a / 2, b / 2)
  }

  function Or(a: nat, b: nat): nat {
    if a == 0 then b else if b == 0 then a
    else (if a % 2 == 1 || b % 2 == 1 then 1 else 0) + 2 * Or(a / 2, b / 2)
  }

  lemma HalfMod(b: nat, q: nat)
    requires q > 0
    ensures b % (2 * q) == 2 * (b / 2 % q) + b % 2
  {
    var h := b / 2;
    assert h == q * (h / q) + h % q;
    assert b == (2 * q) * (h / q) + (2 * (h % q) + b % 2);
    ModIs(b, 2 * q, h / q, 2 * (h % q) + b % 2);
  }

  lemma AndHalves(b: nat, m: nat)
    ensures And(b, 2 * m) == 2 * And(b / 2, m)
    ensures And(b, 2 * m + 1) == 2 * And(b / 2, m) + b % 2
  {
    assert (2 * m) / 2 == m && (2 * m + 1) / 2 == m;
  }

  lemma AndAll(b: nat, n: nat)
    requires n > 0 && And(b / 2, Pow2(n - 1) - 1) == b / 2
    ensures And(b, Pow2(n) - 1) == b
  {
    AndHalves(b, Pow2(n - 1) - 1);
    assert Pow2(n) - 1 == 2 * (Pow2(n - 1) - 1) + 1;
  }

  lemma AndMore(b: nat, n: nat, j: nat)
    requires 0 < j <= n && Pow2(j - 1) <= Pow2(n - 1)
    requires And(b / 2, Pow2(n - 1) - Pow2(j - 1)) == b / 2 - b / 2 % Pow2(j - 1)
    ensures And(b, Pow2(n) - Pow2(j)) == b - b % Pow2(j)
  {
    HalfMod(b, Pow2(j - 1));
    AndHalves(b, Pow2(n - 1) - Pow2(j - 1));
  }

  /** A mask of n - j ones and j zeros clears the last j bits. */
  lemma {:induction false} AndMask(b: nat, n: nat, j: nat)
    requires b < Pow2(n) && j <= n
    ensures Pow2(j) <= Pow2(n) && And(b, Pow2(n) - Pow2(j)) == b - b % Pow2(j)
  {
    if n > 0 {
      if j == 0 {
        AndMask(b / 2, n - 1, 0);
        AndAll(b, n);
      } else {
        AndMask(b / 2, n - 1, j - 1);
        AndMore(b, n, j);
      }
    }
  }

  lemma OrHalves(x: nat, m: nat)
    ensures Or(2 * x, 2 * m + 1) == 2 * Or(x, m) + 1
  {
    assert (2 * x) / 2 == x && (2 * m + 1) / 2 == m;
  }

  /** The complement of a mask fills them. */
  lemma {:induction false} OrMask(x: nat, j: nat)
    requires x % Pow2(j) == 0
    ensures Or(x, Pow2(j) - 1) == x + Pow2(j) - 1
  {
    if j > 0 {
      HalfMod(x, Pow2(j - 1));
      OrMask(x / 2, j - 1);
      OrHalves(x / 2, Pow2(j - 1) - 1);
    }
  }

  // ── Blocks ─────────────────────────────────────────────────────────────────

  /** How many of byte i's bits a mask of p ones leaves out. */
  function Host(p: nat, i: nat): (j: nat)
    ensures j <= 8
  {
    if p >= 8 * i + 8 then 0 else if p <= 8 * i then 8 else 8 * i + 8 - p
  }

  function MaskByte(p: nat, i: nat): Byte {
    Pow256(0);
    AndMask(0, 8, Host(p, i));
    Pow2(8) - Pow2(Host(p, i))
  }

  lemma RemainderFits(b: nat, m: nat)
    requires m > 0
    ensures 0 <= b % m <= b
  {
    if b < m {
      ModIs(b, m, 0, b);
    }
  }

  /** A byte without its last j bits. */
  function Cleared(b: Byte, j: nat): Byte {
    RemainderFits(b, Pow2(j));
    b - b % Pow2(j)
  }

  function Masked(s: Bytes, p: nat): (r: Bytes)
    ensures |r| == |s|
  {
    seq(|s|, i requires 0 <= i < |s| => Cleared(s[i], Host(p, i)))
  }

  /** How many addresses a block has. */
  function Size(n: nat, p: nat): nat
    requires p <= 8 * n
  {
    Pow2(8 * n - p)
  }

  /** The multiple of q at or below v. */
  function Floor(v: nat, q: nat): int
    requires q > 0
  {
    v - v % q
  }

  lemma MaskedWithin(v: nat, b: Byte, q: nat)
    requires q > 0
    ensures (v - v % q) * 256 == (v * 256 + b) - (v * 256 + b) % (256 * q)
  {
    ModIs(v * 256 + b, 256 * q, v / q, 256 * (v % q) + b);
  }

  lemma Reorder(v: nat, m: nat, h: nat)
    ensures v * (m * h) == m * (h * v)
  {}

  lemma MaskedLast(v: nat, b: nat, m: nat, h: nat)
    requires m > 0 && m * h == 256
    ensures v * 256 + (b - b % m) == (v * 256 + b) - (v * 256 + b) % m
  {
    Reorder(v, m, h);
    var w := h * v;
    assert m * w == v * 256;
    assert m * (w + b / m) == m * w + m * (b / m);
    ModIs(v * 256 + b, m, w + b / m, b % m);
  }

  /** One byte more: either all of it is host bits, or some of it is and none of
      those before. */
  lemma OneByteMore(n: nat, p: nat)
    requires p <= 8 * n + 8
    ensures p <= 8 * n ==> Host(p, n) == 8 && Size(n + 1, p) == 256 * Size(n, p)
    ensures p > 8 * n ==> Size(n + 1, p) == Pow2(Host(p, n))
    ensures Pow2(Host(p, n)) * Pow2(8 - Host(p, n)) == 256 == Pow2(8)
  {
    Pow256(if p <= 8 * n then 8 * n - p else 0);
    PowSum(Host(p, n), 8 - Host(p, n));
  }

  lemma ClearedAll(b: Byte)
    ensures Cleared(b, 8) == 0 && Cleared(b, 0) == b
  {
    Pow256(0);
  }

  lemma MaskedMore(t: Bytes, b: Byte, p: nat)
    ensures Value(Masked(t + [b], p)) == Value(Masked(t, p)) * 256 + Cleared(b, Host(p, |t|))
  {
    assert Masked(t + [b], p) == Masked(t, p) + [Cleared(b, Host(p, |t|))];
    ValueOf(Masked(t, p), Cleared(b, Host(p, |t|)));
  }

  lemma AllMasked(t: Bytes, p: nat)
    requires p >= 8 * |t|
    ensures Masked(t, p) == t
  {
    forall i | 0 <= i < |t| ensures Masked(t, p)[i] == t[i] {
      ClearedAll(t[i]);
    }
  }

  /** Masking takes an address to the first of its block. */
  lemma {:induction false} MaskedIsFirst(s: Bytes, p: nat)
    requires p <= 8 * |s|
    ensures Value(Masked(s, p)) == Floor(Value(s), Size(|s|, p))
  {
    if s != [] {
      var t, b := s[..|s| - 1], s[|s| - 1];
      assert s == t + [b];
      MaskedMore(t, b, p);
      if p <= 8 * |t| {
        MaskedIsFirst(t, p);
        MaskedStepWithin(|t|, Value(t), Value(Masked(t, p)), b, p);
      } else {
        AllMasked(t, p);
        MaskedStepLast(|t|, Value(t), b, p);
      }
    }
  }

  lemma MaskedStepWithin(n: nat, v: nat, m: nat, b: Byte, p: nat)
    requires p <= 8 * n && m == Floor(v, Size(n, p))
    ensures m * 256 + Cleared(b, Host(p, n)) == Floor(v * 256 + b, Size(n + 1, p))
  {
    OneByteMore(n, p);
    ClearedAll(b);
    WithinStep(m, v, b, 0, Size(n, p), Size(n + 1, p));
  }

  lemma MaskedStepLast(n: nat, v: nat, b: Byte, p: nat)
    requires 8 * n < p <= 8 * n + 8
    ensures v * 256 + Cleared(b, Host(p, n)) == Floor(v * 256 + b, Size(n + 1, p))
  {
    OneByteMore(n, p);
    LastStep(v, v, b, Cleared(b, Host(p, n)), Pow2(Host(p, n)), Pow2(8 - Host(p, n)));
  }

  lemma WithinStep(m: nat, v: nat, b: Byte, c: nat, q: nat, size: nat)
    requires q > 0 && size == 256 * q && m == Floor(v, q) && c == 0
    ensures m * 256 + c == Floor(v * 256 + b, size)
  {
    MaskedWithin(v, b, q);
  }

  lemma LastStep(m: nat, v: nat, b: nat, c: nat, size: nat, h: nat)
    requires size > 0 && size * h == 256 && m == v && c == Floor(b, size)
    ensures m * 256 + c == Floor(v * 256 + b, size)
  {
    MaskedLast(v, b, size, h);
  }

  /** What & with the mask does to a byte. */
  lemma AndClears(b: Byte, p: nat, i: nat)
    ensures And(b, MaskByte(p, i)) == Cleared(b, Host(p, i))
  {
    Pow256(0);
    AndMask(b, 8, Host(p, i));
  }

  /** And | with its complement, to one of a block's first address. */
  lemma OrFills(b: Byte, p: nat, i: nat)
    requires Cleared(b, Host(p, i)) == b
    ensures Or(b, 255 - MaskByte(p, i)) == b + Pow2(Host(p, i)) - 1
  {
    Pow256(0);
    OrMask(b, Host(p, i));
  }

  predicate InBlock(net: Bytes, p: nat, ip: Bytes) {
    |net| == |ip| && forall i :: 0 <= i < |ip| ==> And(net[i], MaskByte(p, i)) == And(ip[i], MaskByte(p, i))
  }

  predicate IsBroadcast(net: Bytes, p: nat, ip: Bytes) {
    |net| == |ip| && forall i :: 0 <= i < |ip| ==> ip[i] == Or(net[i], 255 - MaskByte(p, i))
  }

  lemma {:induction false} SameValue(s: Bytes, t: Bytes)
    requires |s| == |t|
    ensures Value(s) == Value(t) <==> s == t
  {
    if s != [] {
      SameValue(s[..|s| - 1], t[..|t| - 1]);
      assert s == s[..|s| - 1] + [s[|s| - 1]] && t == t[..|t| - 1] + [t[|t| - 1]];
    }
  }

  lemma SameMasked(net: Bytes, p: nat, ip: Bytes)
    requires |net| == |ip|
    ensures InBlock(net, p, ip) <==> Masked(net, p) == Masked(ip, p)
  {
    forall i | 0 <= i < |ip| ensures And(net[i], MaskByte(p, i)) == Masked(net, p)[i]
                             ensures And(ip[i], MaskByte(p, i)) == Masked(ip, p)[i] {
      AndClears(net[i], p, i);
      AndClears(ip[i], p, i);
    }
  }

  lemma SameFirst(v: nat, w: nat, q: nat)
    requires q > 0 && v % q == 0
    ensures v == w - w % q <==> v <= w < v + q
  {
    if v <= w < v + q {
      assert w == q * (v / q) + (w - v);
      ModIs(w, q, v / q, w - v);
    }
  }

  /** Contains, by bits, is being one of the block's Size numbers from its first. */
  lemma InBlockIs(net: Bytes, p: nat, ip: Bytes)
    requires |net| == |ip| && p <= 8 * |ip| && Masked(net, p) == net
    ensures InBlock(net, p, ip) <==> Value(net) <= Value(ip) < Value(net) + Size(|net|, p)
  {
    SameMasked(net, p, ip);
    MaskedIsFirst(net, p);
    MaskedIsFirst(ip, p);
    SameValue(Masked(net, p), Masked(ip, p));
    SameFirst(Value(net), Value(ip), Size(|net|, p));
  }

  lemma FilledFits(b: nat, m: nat, h: nat)
    requires m > 0 && m * h == 256 && b < 256 && b % m == 0
    ensures b + m - 1 < 256
  {
    var k := b / m;
    assert b == m * k;
    if k >= h {
      Grows(m, h, k);
    } else {
      AtLeast(m, h - k);
      assert m * (h - k) == m * h - m * k;
    }
  }

  /** A byte with its last j bits set. */
  function Filled(b: Byte, j: nat): Byte
    requires j <= 8 && Cleared(b, j) == b
  {
    Pow256(0);
    PowSum(j, 8 - j);
    FilledFits(b, Pow2(j), Pow2(8 - j));
    b + Pow2(j) - 1
  }

  /** The last address of the block. */
  function Last(net: Bytes, p: nat): (r: Bytes)
    requires Masked(net, p) == net
    ensures |r| == |net|
  {
    seq(|net|, i requires 0 <= i < |net| => (assert Masked(net, p)[i] == net[i]; Filled(net[i], Host(p, i))))
  }

  lemma LastMore(t: Bytes, b: Byte, p: nat)
    requires Masked(t + [b], p) == t + [b]
    ensures Masked(t, p) == t && Cleared(b, Host(p, |t|)) == b
    ensures p <= 8 * |t| + 8 ==> Host(p, |t|) <= 8
    ensures Value(Last(t + [b], p)) == Value(Last(t, p)) * 256 + b + Pow2(Host(p, |t|)) - 1
  {
    var s := t + [b];
    forall i | 0 <= i < |t| ensures Masked(t, p)[i] == t[i] {
      assert Masked(s, p)[i] == s[i];
    }
    assert Masked(s, p)[|t|] == b;
    assert Last(s, p) == Last(t, p) + [Filled(b, Host(p, |t|))];
    ValueOf(Last(t, p), Filled(b, Host(p, |t|)));
  }

  lemma {:induction false} LastIs(net: Bytes, p: nat)
    requires p <= 8 * |net| && Masked(net, p) == net
    ensures Value(Last(net, p)) == Value(net) + Size(|net|, p) - 1
  {
    if net != [] {
      var t, b := net[..|net| - 1], net[|net| - 1];
      assert net == t + [b];
      LastMore(t, b, p);
      OneByteMore(|t|, p);
      if p <= 8 * |t| {
        LastIs(t, p);
      } else {
        NothingFilled(t, p);
      }
    }
  }

  lemma NothingFilled(t: Bytes, p: nat)
    requires p >= 8 * |t| && Masked(t, p) == t
    ensures Last(t, p) == t
  {}

  /** isBroadcast, by bits, is being the last of them. */
  lemma BroadcastIs(net: Bytes, p: nat, ip: Bytes)
    requires |net| == |ip| && p <= 8 * |ip| && Masked(net, p) == net
    ensures IsBroadcast(net, p, ip) <==> Value(ip) == Value(net) + Size(|net|, p) - 1
  {
    forall i | 0 <= i < |ip| ensures Or(net[i], 255 - MaskByte(p, i)) == Last(net, p)[i] {
      assert Masked(net, p)[i] == net[i];
      OrFills(net[i], p, i);
    }
    assert IsBroadcast(net, p, ip) <==> ip == Last(net, p);
    SameValue(ip, Last(net, p));
    LastIs(net, p);
  }

  // ── The expansion ──────────────────────────────────────────────────────────

  /** n addresses, ascending, each one more than the one before. */
  predicate Consecutive(ips: seq<Bytes>, first: nat, n: nat) {
    |ips| == n && forall i :: 0 <= i < n ==> |ips[i]| == 4 && Value(ips[i]) == first + i
  }

  lemma MultipleOf(b: nat, m: nat)
    requires m > 0
    ensures (b - b % m) % m == 0
  {
    ModIs(b - b % m, m, b / m, 0);
  }

  lemma ClearedTwice(b: Byte, j: nat)
    ensures Cleared(Cleared(b, j), j) == Cleared(b, j)
  {
    MultipleOf(b, Pow2(j));
  }

  lemma MaskedTwice(s: Bytes, p: nat)
    ensures Masked(Masked(s, p), p) == Masked(s, p)
  {
    forall i | 0 <= i < |s| ensures Masked(Masked(s, p), p)[i] == Masked(s, p)[i] {
      ClearedTwice(s[i], Host(p, i));
    }
  }

  const ALL := 0x1_0000_0000

  lemma AllIs()
    ensures Pow2(8 * 4) == ALL
  {
    Pow256(0);
    Pow256(8);
    Pow256(16);
    Pow256(24);
  }

  lemma RoomAbove(first: nat, size: nat, count: nat, all: nat)
    requires size > 0 && first % size == 0 && first < all == size * count
    ensures first + size <= all
  {
    var k := first / size;
    assert first == size * k;
    if k >= count {
      Grows(size, count, k);
    } else {
      AtLeast(size, count - k);
      assert size * (count - k) == size * count - size * k;
    }
  }

  lemma BlockFits(net: Bytes, p: nat)
    requires |net| == 4 && 1 <= p <= 32 && Masked(net, p) == net
    ensures Value(net) + Size(4, p) <= ALL && Size(4, p) < ALL
  {
    MaskedIsFirst(net, p);
    ValueFits(net);
    AllIs();
    PowSum(32 - p, p);
    RoomAbove(Value(net), Size(4, p), Pow2(p), ALL);
    PowSum(32 - p, 1);
    PowSum(32 - p + 1, p - 1);
    AtLeast(Pow2(32 - p + 1), Pow2(p - 1));
  }

  /** inc comes back to zero from the last address. */
  function Wrapped(v: nat): nat {
    if v == ALL then 0 else v
  }

  lemma StepsIn(first: nat, v: nat, size: nat, n: nat, inBlock: bool, last: bool, same: bool)
    requires first + size <= ALL && size < ALL && n <= size && v == Wrapped(first + n)
    requires inBlock <==> first <= v < first + size
    requires last <==> v == first + size - 1
    requires same <==> v == first
    ensures inBlock <==> n < size
    ensures n < size ==> v == first + n < ALL && (same <==> n == 0) && (last <==> n == size - 1)
  {}

  /** The addresses from first on, size of them, are the block's. */
  ghost predicate IsBlock(net: Bytes, p: nat, first: nat, size: nat) {
    && first + size <= ALL && size < ALL
    && (forall ip :: |ip| == 4 ==> (InBlock(net, p, ip) <==> first <= Value(ip) < first + size))
    && (forall ip :: |ip| == 4 ==> (IsBroadcast(net, p, ip) <==> Value(ip) == first + size - 1))
    && (forall ip :: |ip| == 4 ==> (Value(ip) == first <==> ip == net))
  }

  lemma MaskedIsBlock(net: Bytes, p: nat)
    requires |net| == 4 && 1 <= p <= 32 && Masked(net, p) == net
    ensures IsBlock(net, p, Value(net), Size(4, p))
  {
    BlockFits(net, p);
    forall ip: Bytes | |ip| == 4
      ensures InBlock(net, p, ip) <==> Value(net) <= Value(ip) < Value(net) + Size(4, p)
      ensures IsBroadcast(net, p, ip) <==> Value(ip) == Value(net) + Size(4, p) - 1
      ensures Value(ip) == Value(net) <==> ip == net
    {
      InBlockIs(net, p, ip);
      BroadcastIs(net, p, ip);
      SameValue(ip, net);
    }
  }

  /** After n steps of the loop: in the block while n is less than its size. */
  lemma AfterSteps(net: Bytes, p: nat, first: nat, size: nat, cur: Bytes, n: nat)
    requires IsBlock(net, p, first, size) && |cur| == 4
    requires n <= size && Value(cur) == Wrapped(first + n)
    ensures InBlock(net, p, cur) <==> n < size
    ensures n < size ==> (cur == net <==> n == 0)
    ensures n < size ==> (IsBroadcast(net, p, cur) <==> n == size - 1)
    ensures n < size ==> Value(cur) == first + n < ALL
  {
    StepsIn(first, Value(cur), size, n, InBlock(net, p, cur), IsBroadcast(net, p, cur), cur == net);
  }

  lemma AfterNext(cur: Bytes, v: nat)
    requires |cur| == 4 && Value(cur) == v < ALL
    ensures Value(Next(cur)) == Wrapped(v + 1)
  {
    AllIs();
    NextIsOneMore(cur);
    ModIs(v + 1, ALL, if v + 1 == ALL then 1 else 0, Wrapped(v + 1));
  }

  /** How many addresses are listed once n of the block's are behind. */
  function Listed(size: nat, n: nat): nat {
    if n == 0 then 0 else if n < size then n - 1 else if size >= 2 then size - 2 else 0
  }

  lemma OneMoreListed(ips: seq<Bytes>, cur: Bytes, first: nat, size: nat, n: nat)
    requires Consecutive(ips, first + 1, Listed(size, n)) && n < size && |cur| == 4 && Value(cur) == first + n
    ensures Consecutive(if n == 0 || n == size - 1 then ips else ips + [cur], first + 1, Listed(size, n + 1))
  {}

  /** ExpandCIDR of a block of IPv4 addresses: all those strictly between its
      first and its last, in order and once each. It ends even when the block is
      at the top of the address space, where inc comes back to zero. */
  method ExpandCIDR(ip: Bytes, p: nat) returns (ips: seq<Bytes>)
    requires |ip| == 4 && 1 <= p <= 32
    ensures Consecutive(ips, Value(Masked(ip, p)) + 1, if Size(4, p) >= 2 then Size(4, p) - 2 else 0)
  {
    var net := Masked(ip, p);
    MaskedTwice(ip, p);
    ghost var size := Size(4, p);
    MaskedIsBlock(net, p);
    ips := ExpandBlock(net, p, Value(net), size);
  }

  /** Its loop, from a block's first address. */
  method ExpandBlock(net: Bytes, p: nat, ghost first: nat, ghost size: nat) returns (ips: seq<Bytes>)
    requires |net| == 4 && Value(net) == first && IsBlock(net, p, first, size)
    ensures Consecutive(ips, first + 1, if size >= 2 then size - 2 else 0)
  {
    var cur := new Byte[4](i requires 0 <= i < 4 => net[i]);
    assert cur[..] == net;
    ghost var n: nat := 0;
    ips := [];
    while InBlock(net, p, cur[..])
      invariant n <= size && cur.Length == 4 && fresh(cur)
      invariant Value(cur[..]) == Wrapped(first + n)
      invariant Consecutive(ips, first + 1, Listed(size, n))
      decreases size - n
    {
      AfterSteps(net, p, first, size, cur[..], n);
      AfterNext(cur[..], first + n);
      OneMoreListed(ips, cur[..], first, size, n);
      if cur[..] != net && !IsBroadcast(net, p, cur[..]) {
        ips := ips + [cur[..]];
      }
      Inc(cur);
      n := n + 1;
    }
    AfterSteps(net, p, first, size, cur[..], n);
  }

  /** A prefix of no bits is the one the loop cannot end for: every address is in
      the block, whatever inc makes of it. */
  lemma SlashZeroHasThemAll(net: Bytes, ip: Bytes)
    requires |net| == |ip| == 4
    ensures InBlock(net, 0, ip)
  {
    forall i | 0 <= i < 4 ensures And(net[i], MaskByte(0, i)) == And(ip[i], MaskByte(0, i)) {
      AndClears(net[i], 0, i);
      AndClears(ip[i], 0, i);
      ClearedAll(net[i]);
      ClearedAll(ip[i]);
    }
  }
}
