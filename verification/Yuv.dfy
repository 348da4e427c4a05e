/** YUV 4:2:0 to BGRX (engine/yuv.c): the vector rows convert every pixel as
    FreeRDP's arithmetic does, at every width. */
module Yuv {
  import opened Simd

  /** FreeRDP's full-range BT.709 (engine/yuv.c:15-21), byte c of a pixel. */
  function FreeRdp(y: Byte, u: Byte, v: Byte, c: nat): Byte {
    var Y, D, E := y as int, u as int - 128, v as int - 128;
    if c == 0 then Saturate((256 * Y + 475 * D) / 256)
    else if c == 1 then Saturate((256 * Y - 48 * D - 120 * E) / 256)
    else if c == 2 then Saturate((256 * Y + 403 * E) / 256)
    else 0xff
  }

  /** tail's arithmetic: the shift taken on the chroma alone. */
  function Tail(y: Byte, u: Byte, v: Byte, c: nat): Byte {
    var Y, D, E := y as int, u as int - 128, v as int - 128;
    if c == 0 then Saturate(Y + 475 * D / 256)
    else if c == 1 then Saturate(Y + (-48 * D - 120 * E) / 256)
    else if c == 2 then Saturate(Y + 403 * E / 256)
    else 0xff
  }

  lemma TailIsFreeRdp(y: Byte, u: Byte, v: Byte, c: nat)
    ensures Tail(y, u, v, c) == FreeRdp(y, u, v, c)
  {}

  // ── One block of pixels ────────────────────────────────────────────────────

  datatype Quad = Quad(o0: Bytes, o1: Bytes, o2: Bytes, o3: Bytes) {
    /** The registers in the order they are stored. */
    function Reg(m: nat): Bytes
      requires m < 4
    {
      if m == 0 then o0 else if m == 1 then o1 else if m == 2 then o2 else o3
    }
  }

  /** Luma plus a colour difference times k / 256, by one mulhi of it scaled by
      256. */
  function Channel(y: Words, e: Words, k: Word): Words {
    Add(y, MulHi(Shl8(e), AllWords(k)))
  }

  function Green(y: Words, d: Words, e: Words): Words {
    Add(y, Sar8(Add(MulLo(d, AllWords(-48)), MulLo(e, AllWords(-120)))))
  }

  /** The packed blue, green and red of sixteen pixels. */
  datatype Planes = Planes(b: Bytes, g: Bytes, r: Bytes)

  function Split(Y: Bytes, D: Words, E: Words): Planes {
    var ylo, yhi := AsWords(UnpackLo8(Y, ZeroBytes())), AsWords(UnpackHi8(Y, ZeroBytes()));
    var Dlo, Dhi := UnpackLoW(D, D), UnpackHiW(D, D);
    var Elo, Ehi := UnpackLoW(E, E), UnpackHiW(E, E);
    Planes(PackUs(Channel(ylo, Dlo, 475), Channel(yhi, Dhi, 475)),
           PackUs(Green(ylo, Dlo, Elo), Green(yhi, Dhi, Ehi)),
           PackUs(Channel(ylo, Elo, 403), Channel(yhi, Ehi, 403)))
  }

  function Weave(p: Planes): Quad {
    var bglo, bghi := UnpackLo8(p.b, p.g), UnpackHi8(p.b, p.g);
    var ralo, rahi := UnpackLo8(p.r, AllBytes(0xff)), UnpackHi8(p.r, AllBytes(0xff));
    Quad(UnpackLo16(bglo, ralo), UnpackHi16(bglo, ralo), UnpackLo16(bghi, rahi), UnpackHi16(bghi, rahi))
  }

  /** Eight chroma samples less 128, as words. */
  function Centred(u: Bytes): Words {
    Sub(AsWords(UnpackLo8(u, ZeroBytes())), AllWords(128))
  }

  /** A load of eight bytes into the low half of a register. */
  function LoadLow(u: seq<Byte>): Bytes
    requires |u| == 8
  {
    u + seq(8, _ => 0)
  }

  /** The body of row_sse2's loop, up to the stores. */
  function Convert128(Y: Bytes, u: seq<Byte>, v: seq<Byte>): Quad
    requires |u| == |v| == 8
  {
    Weave(Split(Y, Centred(LoadLow(u)), Centred(LoadLow(v))))
  }

  lemma LumaWords(Y: Bytes, i: nat)
    requires i < 8
    ensures AsWords(UnpackLo8(Y, ZeroBytes()))[i] == Y[i] && AsWords(UnpackHi8(Y, ZeroBytes()))[i] == Y[8 + i]
  {
    assert UnpackLo8(Y, ZeroBytes())[2 * i] == Y[i] && UnpackLo8(Y, ZeroBytes())[2 * i + 1] == 0;
    assert UnpackHi8(Y, ZeroBytes())[2 * i] == Y[8 + i] && UnpackHi8(Y, ZeroBytes())[2 * i + 1] == 0;
  }

  lemma CentredWords(u: seq<Byte>, i: nat)
    requires |u| == 8 && i < 8
    ensures Centred(LoadLow(u))[i] == u[i] as int - 128
  {
    LumaWords(LoadLow(u), i);
  }

  /** Each chroma sample covers two pixels. */
  lemma DoubledWords(D: Words, p: nat)
    requires p < 16
    ensures (if p < 8 then UnpackLoW(D, D)[p] else UnpackHiW(D, D)[p - 8]) == D[p / 2]
  {}

  /** A product scaled by 256, less its low sixteen bits. */
  lemma Unscaled(e: int, k: int)
    requires -128 <= e < 128 && (k == 403 || k == 475)
    ensures 256 * e * k / 0x1_0000 == k * e / 256
    ensures -0x100 <= k * e / 256 < 0x100
  {
    if k == 403 {
      assert 256 * e * 403 == 256 * (403 * e);
    } else {
      assert 256 * e * 475 == 256 * (475 * e);
    }
  }

  /** mulhi of a chroma value scaled by 256 is floor(k e / 256), with no lane
      overflowing on the way. */
  lemma ChannelIsExact(y: Words, e: Words, k: Word, i: nat)
    requires i < 8 && 0 <= y[i] < 256 && -128 <= e[i] < 128 && (k == 403 || k == 475)
    ensures Shl8(e)[i] == 256 * e[i]
    ensures MulHi(Shl8(e), AllWords(k))[i] == (k as int) * e[i] / 256
    ensures Channel(y, e, k)[i] == y[i] + (k as int) * e[i] / 256
  {
    Unscaled(e[i], k);
    assert Shl8(e)[i] == 256 * e[i];
    MulHiAt(Shl8(e), k, i);
    AddAt(y, MulHi(Shl8(e), AllWords(k)), i);
  }

  lemma MulHiAt(a: Words, k: Word, i: nat)
    requires i < 8
    ensures MulHi(a, AllWords(k))[i] == Wrap((a[i] as int) * k / 0x1_0000)
  {}

  lemma AddAt(a: Words, b: Words, i: nat)
    requires i < 8 && -0x8000 <= (a[i] as int) + b[i] < 0x8000
    ensures Add(a, b)[i] == (a[i] as int) + b[i]
  {}

  /** The green sum fits its lanes too. */
  lemma GreenIsExact(y: Words, d: Words, e: Words, i: nat)
    requires i < 8 && 0 <= y[i] < 256 && -128 <= d[i] < 128 && -128 <= e[i] < 128
    ensures Add(MulLo(d, AllWords(-48)), MulLo(e, AllWords(-120)))[i] == -48 * d[i] - 120 * e[i]
    ensures Green(y, d, e)[i] == y[i] + (-48 * d[i] - 120 * e[i]) / 256
  {
    assert MulLo(d, AllWords(-48))[i] == -48 * d[i];
    assert MulLo(e, AllWords(-120))[i] == -120 * e[i];
  }

  /** One pixel's three channels, once its luma and chroma are in lane i. */
  lemma LaneIsTail(y: Words, d: Words, e: Words, i: nat, Y: Byte, u: Byte, v: Byte)
    requires i < 8 && y[i] == Y && d[i] == u as int - 128 && e[i] == v as int - 128
    ensures Saturate(Channel(y, d, 475)[i]) == Tail(Y, u, v, 0)
    ensures Saturate(Green(y, d, e)[i]) == Tail(Y, u, v, 1)
    ensures Saturate(Channel(y, e, 403)[i]) == Tail(Y, u, v, 2)
  {
    ChannelIsExact(y, d, 475, i);
    ChannelIsExact(y, e, 403, i);
    GreenIsExact(y, d, e, i);
  }

  lemma PackedAt(a: Words, b: Words, p: nat)
    requires p < 16
    ensures PackUs(a, b)[p] == Saturate(if p < 8 then a[p] else b[p - 8])
  {}

  lemma LowLane(Y: Bytes, D: Words, E: Words, p: nat, u: Byte, v: Byte)
    requires p < 8 && D[p / 2] == u as int - 128 && E[p / 2] == v as int - 128
    ensures var y, d, e := AsWords(UnpackLo8(Y, ZeroBytes())), UnpackLoW(D, D), UnpackLoW(E, E);
            && Saturate(Channel(y, d, 475)[p]) == Tail(Y[p], u, v, 0)
            && Saturate(Green(y, d, e)[p]) == Tail(Y[p], u, v, 1)
            && Saturate(Channel(y, e, 403)[p]) == Tail(Y[p], u, v, 2)
  {
    DoubledWords(D, p);
    DoubledWords(E, p);
    LumaWords(Y, p);
    LaneIsTail(AsWords(UnpackLo8(Y, ZeroBytes())), UnpackLoW(D, D), UnpackLoW(E, E), p, Y[p], u, v);
  }

  lemma HighLane(Y: Bytes, D: Words, E: Words, i: nat, u: Byte, v: Byte)
    requires i < 8 && D[(8 + i) / 2] == u as int - 128 && E[(8 + i) / 2] == v as int - 128
    ensures var y, d, e := AsWords(UnpackHi8(Y, ZeroBytes())), UnpackHiW(D, D), UnpackHiW(E, E);
            && Saturate(Channel(y, d, 475)[i]) == Tail(Y[8 + i], u, v, 0)
            && Saturate(Green(y, d, e)[i]) == Tail(Y[8 + i], u, v, 1)
            && Saturate(Channel(y, e, 403)[i]) == Tail(Y[8 + i], u, v, 2)
  {
    DoubledWords(D, 8 + i);
    DoubledWords(E, 8 + i);
    LumaWords(Y, i);
    LaneIsTail(AsWords(UnpackHi8(Y, ZeroBytes())), UnpackHiW(D, D), UnpackHiW(E, E), i, Y[8 + i], u, v);
  }

  /** The three packed channels hold the pixels in order. */
  lemma SplitIsTail(Y: Bytes, D: Words, E: Words, p: nat, u: Byte, v: Byte)
    requires p < 16 && D[p / 2] == u as int - 128 && E[p / 2] == v as int - 128
    ensures Split(Y, D, E).b[p] == Tail(Y[p], u, v, 0)
    ensures Split(Y, D, E).g[p] == Tail(Y[p], u, v, 1)
    ensures Split(Y, D, E).r[p] == Tail(Y[p], u, v, 2)
  {
    var ylo, yhi := AsWords(UnpackLo8(Y, ZeroBytes())), AsWords(UnpackHi8(Y, ZeroBytes()));
    var Dlo, Dhi := UnpackLoW(D, D), UnpackHiW(D, D);
    var Elo, Ehi := UnpackLoW(E, E), UnpackHiW(E, E);
    PackedAt(Channel(ylo, Dlo, 475), Channel(yhi, Dhi, 475), p);
    PackedAt(Green(ylo, Dlo, Elo), Green(yhi, Dhi, Ehi), p);
    PackedAt(Channel(ylo, Elo, 403), Channel(yhi, Ehi, 403), p);
    if p < 8 {
      LowLane(Y, D, E, p, u, v);
    } else {
      HighLane(Y, D, E, p - 8, u, v);
    }
  }

  lemma BytesInTurn(a: Bytes, b: Bytes, i: nat)
    requires i < 8
    ensures UnpackLo8(a, b)[2 * i] == a[i] && UnpackLo8(a, b)[2 * i + 1] == b[i]
    ensures UnpackHi8(a, b)[2 * i] == a[8 + i] && UnpackHi8(a, b)[2 * i + 1] == b[8 + i]
  {}

  lemma PairsInTurn(a: Bytes, b: Bytes, k: nat)
    requires k < 4
    ensures var r := UnpackLo16(a, b);
            && r[4 * k] == a[2 * k] && r[4 * k + 1] == a[2 * k + 1]
            && r[4 * k + 2] == b[2 * k] && r[4 * k + 3] == b[2 * k + 1]
    ensures var r := UnpackHi16(a, b);
            && r[4 * k] == a[8 + 2 * k] && r[4 * k + 1] == a[8 + 2 * k + 1]
            && r[4 * k + 2] == b[8 + 2 * k] && r[4 * k + 3] == b[8 + 2 * k + 1]
  {}

  /** Four pixels of one register: the pairs of bg and ra from 2 k on. */
  lemma FourPixels(b: Bytes, g: Bytes, r: Bytes, a: Bytes, k: nat)
    requires k < 4
    ensures var o := UnpackLo16(UnpackLo8(b, g), UnpackLo8(r, a));
            o[4 * k] == b[k] && o[4 * k + 1] == g[k] && o[4 * k + 2] == r[k] && o[4 * k + 3] == a[k]
    ensures var o := UnpackHi16(UnpackLo8(b, g), UnpackLo8(r, a));
            o[4 * k] == b[4 + k] && o[4 * k + 1] == g[4 + k] && o[4 * k + 2] == r[4 + k] && o[4 * k + 3] == a[4 + k]
  {
    BytesInTurn(b, g, k);
    BytesInTurn(r, a, k);
    BytesInTurn(b, g, 4 + k);
    BytesInTurn(r, a, 4 + k);
    PairsInTurn(UnpackLo8(b, g), UnpackLo8(r, a), k);
  }

  lemma FourMorePixels(b: Bytes, g: Bytes, r: Bytes, a: Bytes, k: nat)
    requires k < 4
    ensures var o := UnpackLo16(UnpackHi8(b, g), UnpackHi8(r, a));
            o[4 * k] == b[8 + k] && o[4 * k + 1] == g[8 + k] && o[4 * k + 2] == r[8 + k] && o[4 * k + 3] == a[8 + k]
    ensures var o := UnpackHi16(UnpackHi8(b, g), UnpackHi8(r, a));
            o[4 * k] == b[12 + k] && o[4 * k + 1] == g[12 + k] && o[4 * k + 2] == r[12 + k] && o[4 * k + 3] == a[12 + k]
  {
    BytesInTurn(b, g, k);
    BytesInTurn(r, a, k);
    BytesInTurn(b, g, 4 + k);
    BytesInTurn(r, a, 4 + k);
    PairsInTurn(UnpackHi8(b, g), UnpackHi8(r, a), k);
  }

  /** Interleaving blue with green and red with alpha, then the pairs, leaves
      each pixel's four bytes side by side and the pixels in order. */
  lemma WeaveIsBgrx(s: Planes, m: nat, k: nat)
    requires m < 4 && k < 4
    ensures var o := Weave(s).Reg(m);
            && o[4 * k] == s.b[4 * m + k] && o[4 * k + 1] == s.g[4 * m + k]
            && o[4 * k + 2] == s.r[4 * m + k] && o[4 * k + 3] == 0xff
  {
    var a := AllBytes(0xff);
    if m == 0 {
      FourPixels(s.b, s.g, s.r, a, k);
      assert Weave(s).Reg(m) == UnpackLo16(UnpackLo8(s.b, s.g), UnpackLo8(s.r, a));
    } else if m == 1 {
      FourPixels(s.b, s.g, s.r, a, k);
      assert Weave(s).Reg(m) == UnpackHi16(UnpackLo8(s.b, s.g), UnpackLo8(s.r, a));
    } else if m == 2 {
      FourMorePixels(s.b, s.g, s.r, a, k);
      assert Weave(s).Reg(m) == UnpackLo16(UnpackHi8(s.b, s.g), UnpackHi8(s.r, a));
    } else {
      FourMorePixels(s.b, s.g, s.r, a, k);
      assert Weave(s).Reg(m) == UnpackHi16(UnpackHi8(s.b, s.g), UnpackHi8(s.r, a));
    }
  }

  /** Sixteen pixels at once are sixteen pixels one by one. */
  lemma ConvertsEveryByte(Y: Bytes, u: seq<Byte>, v: seq<Byte>, m: nat, j: nat)
    requires |u| == |v| == 8 && m < 4 && j < 16
    ensures Convert128(Y, u, v).Reg(m)[j] == Tail(Y[4 * m + j / 4], u[2 * m + j / 8], v[2 * m + j / 8], j % 4)
  {
    var k, c := j / 4, j % 4;
    var p := 4 * m + k;
    var D, E := Centred(LoadLow(u)), Centred(LoadLow(v));
    var s := Split(Y, D, E);
    CentredWords(u, p / 2);
    CentredWords(v, p / 2);
    SplitIsTail(Y, D, E, p, u[p / 2], v[p / 2]);
    WeaveIsBgrx(s, m, k);
    ByteOfPixel(Weave(s).Reg(m), s.b[p], s.g[p], s.r[p], k, c);
    assert p / 2 == 2 * m + j / 8;
  }

  lemma ByteOfPixel(o: Bytes, b: Byte, g: Byte, r: Byte, k: nat, c: nat)
    requires k < 4 && c < 4
    requires o[4 * k] == b && o[4 * k + 1] == g && o[4 * k + 2] == r && o[4 * k + 3] == 0xff
    ensures o[4 * k + c] == if c == 0 then b else if c == 1 then g else if c == 2 then r else 0xff
  {}
}
