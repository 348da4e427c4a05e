/** The rows and the image (engine/yuv.c:40-150, 163-176). */
module YuvRows {
  import opened Simd
  import opened Yuv

  /** Byte i of a converted row; a chroma sample serves two pixels. */
  function RowByte(y: seq<Byte>, u: seq<Byte>, v: seq<Byte>, i: nat): Byte
    requires i / 4 < |y| && i / 8 < |u| && i / 8 < |v|
  {
    FreeRdp(y[i / 4], u[i / 8], v[i / 8], i % 4)
  }

  /** The planes hold a row of w pixels. */
  predicate Enough(y: seq<Byte>, u: seq<Byte>, v: seq<Byte>, w: nat) {
    w <= |y| && (w + 1) / 2 <= |u| && (w + 1) / 2 <= |v|
  }

  /** What a row conversion of pixels [x, w) into dst from d0 on has done:
      exactly those bytes, and no other. */
  twostate predicate Converted(y: seq<Byte>, u: seq<Byte>, v: seq<Byte>,
                               dst: array<Byte>, d0: nat, x: nat, w: nat)
    requires Enough(y, u, v, w) && d0 + 4 * w <= dst.Length
    reads dst
  {
    && (forall i :: 4 * x <= i < 4 * w ==> dst[d0 + i] == RowByte(y, u, v, i))
    && (forall k :: 0 <= k < dst.Length && !(d0 + 4 * x <= k < d0 + 4 * w) ==> dst[k] == old(dst[k]))
  }

  /** tail. */
  method TailRow(y: seq<Byte>, u: seq<Byte>, v: seq<Byte>, dst: array<Byte>, d0: nat, x0: nat, w: nat)
    requires Enough(y, u, v, w) && d0 + 4 * w <= dst.Length && x0 <= w
    modifies dst
    ensures Converted(y, u, v, dst, d0, x0, w)
  {
    var x := x0;
    while x < w
      invariant x0 <= x <= w
      invariant forall i :: 4 * x0 <= i < 4 * x ==> dst[d0 + i] == RowByte(y, u, v, i)
      invariant forall k :: 0 <= k < dst.Length && !(d0 + 4 * x0 <= k < d0 + 4 * x) ==> dst[k] == old(dst[k])
    {
      var Y, D, E := y[x] as int, u[x / 2] as int - 128, v[x / 2] as int - 128;
      dst[d0 + 4 * x + 0] := Saturate(Y + 475 * D / 256);
      dst[d0 + 4 * x + 1] := Saturate(Y + (-48 * D - 120 * E) / 256);
      dst[d0 + 4 * x + 2] := Saturate(Y + 403 * E / 256);
      dst[d0 + 4 * x + 3] := 0xff;
      forall i | 4 * x <= i < 4 * x + 4 ensures dst[d0 + i] == RowByte(y, u, v, i) {
        assert i / 4 == x && i / 8 == x / 2;
        TailIsFreeRdp(y[x], u[x / 2], v[x / 2], i % 4);
      }
      x := x + 1;
    }
  }

  /** storeu: sixteen bytes at d. */
  method Store(dst: array<Byte>, d: nat, r: Bytes)
    requires d + 16 <= dst.Length
    modifies dst
    ensures forall k :: 0 <= k < dst.Length ==> dst[k] == if d <= k < d + 16 then r[k - d] else old(dst[k])
  {
    forall j | 0 <= j < 16 {
      dst[d + j] := r[j];
    }
  }

  lemma Parts4(n: nat, q: nat, r: nat)
    requires n == 4 * q + r && r < 4
    ensures n / 4 == q && n % 4 == r
  {}

  lemma Parts8(n: nat, q: nat, r: nat)
    requires n == 8 * q + r && r < 8
    ensures n / 8 == q
  {}

  /** Which samples byte i of a row comes from, for byte j of register m of the
      block at pixel 2 h. */
  lemma SamplesOf(h: nat, m: nat, j: nat)
    ensures var i := 8 * h + 16 * m + j;
            i / 4 == 2 * h + (4 * m + j / 4) && i / 8 == h + (2 * m + j / 8) && i % 4 == j % 4
  {
    Parts4(8 * h + 16 * m + j, 2 * h + 4 * m + j / 4, j % 4);
    Parts8(8 * h + 16 * m + j, h + 2 * m + j / 8, j % 8);
  }

  /** The four registers hold the sixteen pixels, byte by byte. */
  predicate Block(q: Quad, Y: Bytes, u: seq<Byte>, v: seq<Byte>)
    requires |u| == |v| == 8
  {
    forall m, j :: 0 <= m < 4 && 0 <= j < 16 ==>
      q.Reg(m)[j] == Tail(Y[4 * m + j / 4], u[2 * m + j / 8], v[2 * m + j / 8], j % 4)
  }

  lemma ConvertedBlock(Y: Bytes, u: seq<Byte>, v: seq<Byte>)
    requires |u| == |v| == 8
    ensures Block(Convert128(Y, u, v), Y, u, v)
  {
    forall m, j | 0 <= m < 4 && 0 <= j < 16
      ensures Convert128(Y, u, v).Reg(m)[j] == Tail(Y[4 * m + j / 4], u[2 * m + j / 8], v[2 * m + j / 8], j % 4)
    {
      ConvertsEveryByte(Y, u, v, m, j);
    }
  }

  /** The samples of the sixteen pixels from 2 h on. */
  predicate BlockOf(q: Quad, y: seq<Byte>, u: seq<Byte>, v: seq<Byte>, h: nat)
    requires 2 * h + 16 <= |y| && h + 8 <= |u| && h + 8 <= |v|
  {
    Block(q, y[2 * h..2 * h + 16], u[h..h + 8], v[h..h + 8])
  }

  /** Sixteen pixels, as the registers q hold them. */
  lemma BlockIsRow(y: seq<Byte>, u: seq<Byte>, v: seq<Byte>, h: nat, w: nat, q: Quad, m: nat, j: nat)
    requires Enough(y, u, v, w) && 2 * h + 16 <= w && m < 4 && j < 16 && BlockOf(q, y, u, v, h)
    ensures q.Reg(m)[j] == RowByte(y, u, v, 8 * h + 16 * m + j)
  {
    var ys, us, vs := y[2 * h..2 * h + 16], u[h..h + 8], v[h..h + 8];
    var p, c := 4 * m + j / 4, 2 * m + j / 8;
    SamplesOf(h, m, j);
    assert q.Reg(m)[j] == Tail(ys[p], us[c], vs[c], j % 4);
    assert ys[p] == y[2 * h + p] && us[c] == u[h + c] && vs[c] == v[h + c];
    TailIsFreeRdp(ys[p], us[c], vs[c], j % 4);
  }

  /** The registers of a block lie in memory from d on. */
  predicate InMemory(dst: array<Byte>, d: nat, q: Quad)
    requires d + 64 <= dst.Length
    reads dst
  {
    forall k :: d <= k < d + 64 ==>
      dst[k] == if k < d + 16 then q.o0[k - d] else if k < d + 32 then q.o1[k - d - 16]
                else if k < d + 48 then q.o2[k - d - 32] else q.o3[k - d - 48]
  }

  lemma InRegister(dst: array<Byte>, d: nat, q: Quad, m: nat, j: nat)
    requires d + 64 <= dst.Length && m < 4 && j < 16 && InMemory(dst, d, q)
    ensures dst[d + 16 * m + j] == q.Reg(m)[j]
  {}

  lemma ByteInMemory(y: seq<Byte>, u: seq<Byte>, v: seq<Byte>, dst: array<Byte>, d0: nat, h: nat, w: nat, q: Quad,
                     t: nat)
    requires Enough(y, u, v, w) && d0 + 4 * w <= dst.Length && 2 * h + 16 <= w && t < 64
    requires BlockOf(q, y, u, v, h) && InMemory(dst, d0 + 8 * h, q)
    ensures dst[d0 + (8 * h + t)] == RowByte(y, u, v, 8 * h + t)
  {
    var m, j := t / 16, t % 16;
    assert 8 * h + t == 8 * h + 16 * m + j;
    BlockIsRow(y, u, v, h, w, q, m, j);
    InRegister(dst, d0 + 8 * h, q, m, j);
  }

  /** A block in memory is its sixteen pixels of the row. */
  lemma BlockInMemory(y: seq<Byte>, u: seq<Byte>, v: seq<Byte>, dst: array<Byte>, d0: nat, h: nat, w: nat, q: Quad)
    requires Enough(y, u, v, w) && d0 + 4 * w <= dst.Length && 2 * h + 16 <= w
    requires BlockOf(q, y, u, v, h) && InMemory(dst, d0 + 8 * h, q)
    ensures forall i :: 8 * h <= i < 8 * h + 64 ==> dst[d0 + i] == RowByte(y, u, v, i)
  {
    forall i | 8 * h <= i < 8 * h + 64 ensures dst[d0 + i] == RowByte(y, u, v, i) {
      ByteInMemory(y, u, v, dst, d0, h, w, q, i - 8 * h);
    }
  }

  /** row_sse2's stores. */
  method StoreQuad(dst: array<Byte>, d: nat, q: Quad)
    requires d + 64 <= dst.Length
    modifies dst
    ensures InMemory(dst, d, q)
    ensures forall k :: 0 <= k < dst.Length && !(d <= k < d + 64) ==> dst[k] == old(dst[k])
  {
    Store(dst, d, q.o0);
    Store(dst, d + 16, q.o1);
    Store(dst, d + 32, q.o2);
    Store(dst, d + 48, q.o3);
  }

  lemma ChromaReaches(y: seq<Byte>, u: seq<Byte>, v: seq<Byte>, w: nat, h: nat, n: nat)
    requires Enough(y, u, v, w) && 2 * h + 2 * n <= w
    ensures h + n <= |u| && h + n <= |v|
  {}

  /** The body of row_sse2's loop. */
  method BlockSse2(y: seq<Byte>, u: seq<Byte>, v: seq<Byte>, dst: array<Byte>, d0: nat, h: nat, ghost w: nat)
    requires Enough(y, u, v, w) && d0 + 4 * w <= dst.Length && 2 * h + 16 <= w
    modifies dst
    ensures Converted(y, u, v, dst, d0, 2 * h, 2 * h + 16)
  {
    ChromaReaches(y, u, v, w, h, 8);
    var q := Convert128(y[2 * h..2 * h + 16], u[h..h + 8], v[h..h + 8]);
    ConvertedBlock(y[2 * h..2 * h + 16], u[h..h + 8], v[h..h + 8]);
    StoreQuad(dst, d0 + 8 * h, q);
    BlockInMemory(y, u, v, dst, d0, h, w, q);
  }

  /** row_sse2; h is x / 2. */
  method RowSse2(y: seq<Byte>, u: seq<Byte>, v: seq<Byte>, dst: array<Byte>, d0: nat, w: nat)
    requires Enough(y, u, v, w) && d0 + 4 * w <= dst.Length
    modifies dst
    ensures Converted(y, u, v, dst, d0, 0, w)
  {
    var x, h := 0, 0;
    while x + 16 <= w
      invariant x == 2 * h <= w
      invariant Converted(y, u, v, dst, d0, 0, x)
    {
      BlockSse2(y, u, v, dst, d0, h, w);
      x, h := x + 16, h + 8;
    }
    TailRow(y, u, v, dst, d0, x, w);
  }

  // ── AVX2 ───────────────────────────────────────────────────────────────────

  /** A 256-bit register is its two 128-bit halves. Every instruction used here
      but the widening load and the permutation works within each half. */
  datatype Wide<T> = Wide(lo: T, hi: T)

  /** cvtepu8_epi16, less 128. */
  function WideCentred(u: Bytes): Wide<Words> {
    Wide(Sub(AsWords(UnpackLo8(u, ZeroBytes())), AllWords(128)),
         Sub(AsWords(UnpackHi8(u, ZeroBytes())), AllWords(128)))
  }

  /** permute2x128 with 0x20 and with 0x31. */
  function LowHalves(a: Wide<Bytes>, b: Wide<Bytes>): Wide<Bytes> {
    Wide(a.lo, b.lo)
  }

  function HighHalves(a: Wide<Bytes>, b: Wide<Bytes>): Wide<Bytes> {
    Wide(a.hi, b.hi)
  }

  /** The widened chroma is the same words in the same half as two loads of
      eight samples would give. */
  lemma WideningKeepsOrder(u: Bytes)
    ensures WideCentred(u).lo == Centred(LoadLow(u[..8]))
    ensures WideCentred(u).hi == Centred(LoadLow(u[8..]))
  {
    forall i | 0 <= i < 8
      ensures WideCentred(u).lo[i] == Centred(LoadLow(u[..8]))[i]
      ensures WideCentred(u).hi[i] == Centred(LoadLow(u[8..]))[i]
    {
      LumaWords(u, i);
      CentredWords(u[..8], i);
      CentredWords(u[8..], i);
    }
  }

  method StoreWide(dst: array<Byte>, d: nat, r: Wide<Bytes>)
    requires d + 32 <= dst.Length
    modifies dst
    ensures forall k :: 0 <= k < dst.Length ==>
              dst[k] == if d <= k < d + 16 then r.lo[k - d] else if d + 16 <= k < d + 32 then r.hi[k - d - 16]
                        else old(dst[k])
  {
    Store(dst, d, r.lo);
    Store(dst, d + 16, r.hi);
  }

  /** Both halves of the registers of row_avx2's loop, up to the permutation. */
  function Convert256(Y: Wide<Bytes>, D: Wide<Words>, E: Wide<Words>): Wide<Quad> {
    Wide(Weave(Split(Y.lo, D.lo, E.lo)), Weave(Split(Y.hi, D.hi, E.hi)))
  }

  /** Each half converts its own sixteen pixels as row_sse2 would. */
  lemma HalvesAreBlocks(Y: seq<Byte>, u: Bytes, v: Bytes)
    requires |Y| == 32
    ensures var q := Convert256(Wide(Y[..16], Y[16..]), WideCentred(u), WideCentred(v));
            Block(q.lo, Y[..16], u[..8], v[..8]) && Block(q.hi, Y[16..], u[8..], v[8..])
  {
    WideningKeepsOrder(u);
    WideningKeepsOrder(v);
    ConvertedBlock(Y[..16], u[..8], v[..8]);
    ConvertedBlock(Y[16..], u[8..], v[8..]);
  }

  lemma SliceOfSlice(s: seq<Byte>, x: nat, n: nat)
    requires x + 2 * n <= |s|
    ensures s[x..x + 2 * n][..n] == s[x..x + n] && s[x..x + 2 * n][n..] == s[x + n..x + 2 * n]
  {}

  lemma BlockOfSame(q: Quad, Y: Bytes, us: seq<Byte>, vs: seq<Byte>, y: seq<Byte>, u: seq<Byte>, v: seq<Byte>, h: nat)
    requires 2 * h + 16 <= |y| && h + 8 <= |u| && h + 8 <= |v|
    requires |us| == |vs| == 8 && Block(q, Y, us, vs)
    requires Y == y[2 * h..2 * h + 16] && us == u[h..h + 8] && vs == v[h..h + 8]
    ensures BlockOf(q, y, u, v, h)
  {}

  lemma BlockOfHalves(q: Wide<Quad>, y: seq<Byte>, u: seq<Byte>, v: seq<Byte>, h: nat)
    requires 2 * h + 32 <= |y| && h + 16 <= |u| && h + 16 <= |v|
    requires Block(q.lo, y[2 * h..2 * h + 32][..16], u[h..h + 16][..8], v[h..h + 16][..8])
    requires Block(q.hi, y[2 * h..2 * h + 32][16..], u[h..h + 16][8..], v[h..h + 16][8..])
    ensures BlockOf(q.lo, y, u, v, h) && BlockOf(q.hi, y, u, v, h + 8)
  {
    SliceOfSlice(y, 2 * h, 16);
    SliceOfSlice(u, h, 8);
    SliceOfSlice(v, h, 8);
    BlockOfSame(q.lo, y[2 * h..2 * h + 32][..16], u[h..h + 16][..8], v[h..h + 16][..8], y, u, v, h);
    BlockOfSame(q.hi, y[2 * h..2 * h + 32][16..], u[h..h + 16][8..], v[h..h + 16][8..], y, u, v, h + 8);
  }

  /** Loads and conversion of the thirty-two pixels from 2 h on. */
  method ConvertWide(y: seq<Byte>, u: seq<Byte>, v: seq<Byte>, h: nat) returns (q: Wide<Quad>)
    requires 2 * h + 32 <= |y| && h + 16 <= |u| && h + 16 <= |v|
    ensures BlockOf(q.lo, y, u, v, h) && BlockOf(q.hi, y, u, v, h + 8)
  {
    var Y, us, vs := y[2 * h..2 * h + 32], u[h..h + 16], v[h..h + 16];
    q := Convert256(Wide(Y[..16], Y[16..]), WideCentred(us), WideCentred(vs));
    HalvesAreBlocks(Y, us, vs);
    BlockOfHalves(q, y, u, v, h);
  }

  /** row_avx2's permutations and stores: the low half's pixels, then the high
      half's. */
  method StoreHalves(dst: array<Byte>, d: nat, q: Wide<Quad>)
    requires d + 128 <= dst.Length
    modifies dst
    ensures InMemory(dst, d, q.lo) && InMemory(dst, d + 64, q.hi)
    ensures forall k :: 0 <= k < dst.Length && !(d <= k < d + 128) ==> dst[k] == old(dst[k])
  {
    var o0, o1 := Wide(q.lo.o0, q.hi.o0), Wide(q.lo.o1, q.hi.o1);
    var o2, o3 := Wide(q.lo.o2, q.hi.o2), Wide(q.lo.o3, q.hi.o3);
    StoreWide(dst, d, LowHalves(o0, o1));
    StoreWide(dst, d + 32, LowHalves(o2, o3));
    StoreWide(dst, d + 64, HighHalves(o0, o1));
    StoreWide(dst, d + 96, HighHalves(o2, o3));
  }

  lemma BlocksInMemory(y: seq<Byte>, u: seq<Byte>, v: seq<Byte>, dst: array<Byte>, d0: nat, h: nat, w: nat,
                       q: Wide<Quad>)
    requires Enough(y, u, v, w) && d0 + 4 * w <= dst.Length && 2 * h + 32 <= w
    requires BlockOf(q.lo, y, u, v, h) && BlockOf(q.hi, y, u, v, h + 8)
    requires InMemory(dst, d0 + 8 * h, q.lo) && InMemory(dst, d0 + 8 * h + 64, q.hi)
    ensures forall i :: 8 * h <= i < 8 * h + 128 ==> dst[d0 + i] == RowByte(y, u, v, i)
  {
    BlockInMemory(y, u, v, dst, d0, h, w, q.lo);
    assert d0 + 8 * (h + 8) == d0 + 8 * h + 64;
    BlockInMemory(y, u, v, dst, d0, h + 8, w, q.hi);
  }

  /** The body of row_avx2's loop. */
  method BlockAvx2(y: seq<Byte>, u: seq<Byte>, v: seq<Byte>, dst: array<Byte>, d0: nat, h: nat, ghost w: nat)
    requires Enough(y, u, v, w) && d0 + 4 * w <= dst.Length && 2 * h + 32 <= w
    modifies dst
    ensures Converted(y, u, v, dst, d0, 2 * h, 2 * h + 32)
  {
    ChromaReaches(y, u, v, w, h, 16);
    var q := ConvertWide(y, u, v, h);
    StoreHalves(dst, d0 + 8 * h, q);
    BlocksInMemory(y, u, v, dst, d0, h, w, q);
  }

  /** row_avx2. */
  method RowAvx2(y: seq<Byte>, u: seq<Byte>, v: seq<Byte>, dst: array<Byte>, d0: nat, w: nat)
    requires Enough(y, u, v, w) && d0 + 4 * w <= dst.Length
    modifies dst
    ensures Converted(y, u, v, dst, d0, 0, w)
  {
    var x, h := 0, 0;
    while x + 32 <= w
      invariant x == 2 * h <= w
      invariant Converted(y, u, v, dst, d0, 0, x)
    {
      BlockAvx2(y, u, v, dst, d0, h, w);
      x, h := x + 32, h + 16;
    }
    TailRow(y, u, v, dst, d0, x, w);
  }

  // ── The image ──────────────────────────────────────────────────────────────

  /** Where a row begins. */
  function Start(row: nat, step: nat): nat {
    row * step
  }

  lemma RowsApart(r: nat, s: nat, step: nat)
    requires r < s
    ensures Start(r, step) + step <= Start(s, step)
  {
    assert (s - r - 1) * step >= 0;
  }

  /** A frame as FreeRDP hands it over: three planes and their strides. */
  datatype Frame = Frame(y: seq<Byte>, u: seq<Byte>, v: seq<Byte>, ys: nat, us: nat, vs: nat)

  predicate Holds(f: Frame, w: nat, h: nat) {
    && (forall r :: 0 <= r < h ==> Start(r, f.ys) + w <= |f.y|)
    && (forall r :: 0 <= r < (h + 1) / 2 ==> Start(r, f.us) + (w + 1) / 2 <= |f.u|)
    && (forall r :: 0 <= r < (h + 1) / 2 ==> Start(r, f.vs) + (w + 1) / 2 <= |f.v|)
  }

  /** Byte i of row r of the converted image. */
  function ImageByte(f: Frame, w: nat, h: nat, r: nat, i: nat): Byte
    requires Holds(f, w, h) && r < h && i < 4 * w
  {
    FreeRdp(f.y[Start(r, f.ys) + i / 4], f.u[Start(r / 2, f.us) + i / 8], f.v[Start(r / 2, f.vs) + i / 8], i % 4)
  }

  /** Byte k of the destination belongs to one of the first n rows. */
  ghost predicate InRows(k: int, n: nat, dstep: nat, w: nat) {
    exists r :: 0 <= r < n && Start(r, dstep) <= k < Start(r, dstep) + 4 * w
  }

  /** sc_yuv420_to_bgrx, for the formats it converts itself: with either row,
      every byte of every row is FreeRDP's, and no byte beyond 4 w of a row is
      written. */
  method ConvertImage(f: Frame, dst: array<Byte>, dstep: nat, w: nat, h: nat, avx2: bool)
    requires Holds(f, w, h) && 4 * w <= dstep
    requires forall r :: 0 <= r < h ==> Start(r, dstep) + 4 * w <= dst.Length
    modifies dst
    ensures forall r, i :: 0 <= r < h && 0 <= i < 4 * w ==>
              dst[Start(r, dstep) + i] == ImageByte(f, w, h, r, i)
    ensures forall k :: 0 <= k < dst.Length && !InRows(k, h, dstep, w) ==> dst[k] == old(dst[k])
  {
    var r := 0;
    while r < h
      invariant r <= h
      invariant forall s, i :: 0 <= s < r && 0 <= i < 4 * w ==>
                  dst[Start(s, dstep) + i] == ImageByte(f, w, h, s, i)
      invariant forall k :: 0 <= k < dst.Length && !InRows(k, r, dstep, w) ==> dst[k] == old(dst[k])
    {
      var y, u, v := f.y[Start(r, f.ys)..], f.u[Start(r / 2, f.us)..], f.v[Start(r / 2, f.vs)..];
      var d := Start(r, dstep);
      if avx2 {
        RowAvx2(y, u, v, dst, d, w);
      } else {
        RowSse2(y, u, v, dst, d, w);
      }
      forall i | 0 <= i < 4 * w ensures dst[d + i] == ImageByte(f, w, h, r, i) {
        assert dst[d + i] == RowByte(y, u, v, i);
      }
      forall s, i | 0 <= s < r && 0 <= i < 4 * w
        ensures dst[Start(s, dstep) + i] == ImageByte(f, w, h, s, i)
      {
        RowsApart(s, r, dstep);
      }
      forall k | 0 <= k < dst.Length && !InRows(k, r + 1, dstep, w) ensures !InRows(k, r, dstep, w) {}
      r := r + 1;
    }
  }
}
