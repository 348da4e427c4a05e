/** The SSE2 and AVX2 instructions of engine/yuv.c. A register is the bytes or
    the signed words in it; Words reads bytes as words, as the instructions that
    follow unpacklo_epi8 with zero do. */
module Simd {

  type Byte = n: int | 0 <= n < 256
  type Word = n: int | -0x8000 <= n < 0x8000

  type Bytes = v: seq<Byte> | |v| == 16 witness seq(16, _ => 0)
  type Words = v: seq<Word> | |v| == 8 witness seq(8, _ => 0)

  /** A result cut to sixteen bits. */
  function Wrap(n: int): Word {
    (n + 0x8000) % 0x1_0000 - 0x8000
  }

  /** A signed word saturated to an unsigned byte. */
  function Saturate(n: int): Byte {
    if n < 0 then 0 else if n > 255 then 255 else n
  }

  function AsWords(v: Bytes): Words {
    seq(8, i requires 0 <= i < 8 => Wrap((v[2 * i] as int) + 256 * (v[2 * i + 1] as int)))
  }

  function ZeroBytes(): Bytes {
    seq(16, _ => 0)
  }

  /** set1_epi8 and set1_epi16. */
  function AllBytes(n: Byte): Bytes {
    seq(16, _ => n)
  }

  function AllWords(n: Word): Words {
    seq(8, _ => n)
  }

  function Add(a: Words, b: Words): Words {
    seq(8, i requires 0 <= i < 8 => Wrap((a[i] as int) + b[i]))
  }

  function Sub(a: Words, b: Words): Words {
    seq(8, i requires 0 <= i < 8 => Wrap((a[i] as int) - b[i]))
  }

  /** mullo_epi16 and mulhi_epi16: the halves of the signed product. */
  function MulLo(a: Words, b: Words): Words {
    seq(8, i requires 0 <= i < 8 => Wrap((a[i] as int) * b[i]))
  }

  function MulHi(a: Words, b: Words): Words {
    seq(8, i requires 0 <= i < 8 => Wrap((a[i] as int) * b[i] / 0x1_0000))
  }

  /** slli_epi16 and srai_epi16 by 8: the latter rounds towards minus infinity. */
  function Shl8(a: Words): Words {
    seq(8, i requires 0 <= i < 8 => Wrap((a[i] as int) * 256))
  }

  function Sar8(a: Words): Words {
    seq(8, i requires 0 <= i < 8 => Wrap(a[i] / 256))
  }

  /** packus_epi16. */
  function PackUs(a: Words, b: Words): Bytes {
    seq(16, i requires 0 <= i < 16 => if i < 8 then Saturate(a[i]) else Saturate(b[i - 8]))
  }

  /** unpacklo_epi8 and unpackhi_epi8: the bytes of a and b in turn. */
  function UnpackLo8(a: Bytes, b: Bytes): Bytes {
    seq(16, i requires 0 <= i < 16 => if i % 2 == 0 then a[i / 2] else b[i / 2])
  }

  function UnpackHi8(a: Bytes, b: Bytes): Bytes {
    seq(16, i requires 0 <= i < 16 => if i % 2 == 0 then a[8 + i / 2] else b[8 + i / 2])
  }

  /** unpacklo_epi16 and unpackhi_epi16 of words. */
  function UnpackLoW(a: Words, b: Words): Words {
    seq(8, i requires 0 <= i < 8 => if i % 2 == 0 then a[i / 2] else b[i / 2])
  }

  function UnpackHiW(a: Words, b: Words): Words {
    seq(8, i requires 0 <= i < 8 => if i % 2 == 0 then a[4 + i / 2] else b[4 + i / 2])
  }

  /** The same two instructions on registers of bytes: pairs of them in turn. */
  function UnpackLo16(a: Bytes, b: Bytes): Bytes {
    seq(16, i requires 0 <= i < 16 => if i % 4 < 2 then a[2 * (i / 4) + i % 4] else b[2 * (i / 4) + i % 4 - 2])
  }

  function UnpackHi16(a: Bytes, b: Bytes): Bytes {
    seq(16, i requires 0 <= i < 16 =>
      if i % 4 < 2 then a[8 + 2 * (i / 4) + i % 4] else b[8 + 2 * (i / 4) + i % 4 - 2])
  }
}
