/** SHA-256 as FIPS 180-4 defines it, for whole byte strings. */
module Sha256Spec {
  import opened CheckedArithmetic

  type Word = bv32

  const BLOCK := 64

  // Section 4.1.2: the functions on words.

  function Ch(x: Word, y: Word, z: Word): Word { (x & y) ^ (!x & z) }
  function Maj(x: Word, y: Word, z: Word): Word { (x & y) ^ (x & z) ^ (y & z) }
  function Xor(x: Word, y: Word, z: Word): Word { x ^ y ^ z }
  function BigSigma0(x: Word): Word { Xor(x.RotateRight(2), x.RotateRight(13), x.RotateRight(22)) }
  function BigSigma1(x: Word): Word { Xor(x.RotateRight(6), x.RotateRight(11), x.RotateRight(25)) }
  function Sigma0(x: Word): Word { Xor(x.RotateRight(7), x.RotateRight(18), x >> 3) }
  function Sigma1(x: Word): Word { Xor(x.RotateRight(17), x.RotateRight(19), x >> 10) }

  // Addition modulo 2^32.

  function Sum2(x: Word, y: Word): Word { x + y }
  function Sum4(x: Word, y: Word, z: Word, u: Word): Word { x + y + z + u }
  function Sum5(x: Word, y: Word, z: Word, u: Word, v: Word): Word { x + y + z + u + v }

  // Sections 4.2.2 and 5.3.3: the constants.

  const K_ROWS: seq<seq<Word>> := [
    [0x428a2f98, 0x71374491, 0xb5c0fbcf, 0xe9b5dba5, 0x3956c25b, 0x59f111f1, 0x923f82a4, 0xab1c5ed5],
    [0xd807aa98, 0x12835b01, 0x243185be, 0x550c7dc3, 0x72be5d74, 0x80deb1fe, 0x9bdc06a7, 0xc19bf174],
    [0xe49b69c1, 0xefbe4786, 0x0fc19dc6, 0x240ca1cc, 0x2de92c6f, 0x4a7484aa, 0x5cb0a9dc, 0x76f988da],
    [0x983e5152, 0xa831c66d, 0xb00327c8, 0xbf597fc7, 0xc6e00bf3, 0xd5a79147, 0x06ca6351, 0x14292967],
    [0x27b70a85, 0x2e1b2138, 0x4d2c6dfc, 0x53380d13, 0x650a7354, 0x766a0abb, 0x81c2c92e, 0x92722c85],
    [0xa2bfe8a1, 0xa81a664b, 0xc24b8b70, 0xc76c51a3, 0xd192e819, 0xd6990624, 0xf40e3585, 0x106aa070],
    [0x19a4c116, 0x1e376c08, 0x2748774c, 0x34b0bcb5, 0x391c0cb3, 0x4ed8aa4a, 0x5b9cca4f, 0x682e6ff3],
    [0x748f82ee, 0x78a5636f, 0x84c87814, 0x8cc70208, 0x90befffa, 0xa4506ceb, 0xbef9a3f7, 0xc67178f2]]

  function K(t: nat): Word
    requires t < 64
  {
    K_ROWS[t / 8][t % 8]
  }

  const INITIAL: seq<Word> := [
    0x6a09e667, 0xbb67ae85, 0x3c6ef372, 0xa54ff53a, 0x510e527f, 0x9b05688c, 0x1f83d9ab, 0x5be0cd19]

  // Section 6.2.2: the computation for one block.

  /** Bytes to a word, most significant first. */
  function WordAt(block: seq<Byte>, t: nat): Word
    requires |block| == BLOCK && t < 16
  {
    block[4 * t] as Word * 0x1000000 + block[4 * t + 1] as Word * 0x10000
    + block[4 * t + 2] as Word * 0x100 + block[4 * t + 3] as Word
  }

  /** The message schedule. */
  function W(block: seq<Byte>, t: nat): Word
    requires |block| == BLOCK
  {
    if t < 16 then WordAt(block, t)
    else Extend(W(block, t - 2), W(block, t - 7), W(block, t - 15), W(block, t - 16))
  }

  function Extend(w2: Word, w7: Word, w15: Word, w16: Word): Word { Sum4(Sigma1(w2), w7, Sigma0(w15), w16) }

  datatype Working = Working(a: Word, b: Word, c: Word, d: Word, e: Word, f: Word, g: Word, h: Word)

  function Round(v: Working, k: Word, w: Word): Working {
    var t1 := Sum5(v.h, BigSigma1(v.e), Ch(v.e, v.f, v.g), k, w);
    var t2 := Sum2(BigSigma0(v.a), Maj(v.a, v.b, v.c));
    Working(Sum2(t1, t2), v.a, v.b, v.c, Sum2(v.d, t1), v.e, v.f, v.g)
  }

  /** The working variables after the first t rounds. */
  function Rounds(v: Working, block: seq<Byte>, t: nat): Working
    requires |block| == BLOCK && t <= 64
  {
    if t == 0 then v else Round(Rounds(v, block, t - 1), K(t - 1), W(block, t - 1))
  }

  function Unpack(h: seq<Word>): Working
    requires |h| == 8
  {
    Working(h[0], h[1], h[2], h[3], h[4], h[5], h[6], h[7])
  }

  function Sum(h: seq<Word>, v: Working): (r: seq<Word>)
    requires |h| == 8
    ensures |r| == 8
  {
    [Sum2(h[0], v.a), Sum2(h[1], v.b), Sum2(h[2], v.c), Sum2(h[3], v.d),
     Sum2(h[4], v.e), Sum2(h[5], v.f), Sum2(h[6], v.g), Sum2(h[7], v.h)]
  }

  function Compress(h: seq<Word>, block: seq<Byte>): (r: seq<Word>)
    requires |h| == 8 && |block| == BLOCK
    ensures |r| == 8
  {
    Sum(h, Rounds(Unpack(h), block, 64))
  }

  /** Sections 5.2.1 and 6.2.2: block after block, from the initial hash value. */
  function Absorb(m: seq<Byte>): (r: seq<Word>)
    requires |m| % BLOCK == 0
    ensures |r| == 8
  {
    if m == [] then INITIAL else Compress(Absorb(m[..|m| - BLOCK]), m[|m| - BLOCK..])
  }

  // Section 5.1.1: padding.

  /** n in `width` bytes, most significant first. */
  function BigEndian(n: nat, width: nat): (r: seq<Byte>)
    ensures |r| == width
  {
    if width == 0 then [] else BigEndian(n / 256, width - 1) + [LowByte(n)]
  }

  function LowByte(n: nat): Byte { (n % 256) as Byte }

  function Zeros(n: nat): (r: seq<Byte>)
    ensures |r| == n && forall i :: 0 <= i < n ==> r[i] == 0
  {
    seq(n, _ => 0)
  }

  /** The number of zero bytes, less than a block, that leaves exactly eight for the length. */
  function ZeroCount(n: nat): (k: nat)
    ensures (n + 1 + k + 8) % BLOCK == 0
    ensures k < BLOCK
  {
    (119 - n % BLOCK) % BLOCK
  }

  function Pad(m: seq<Byte>): (r: seq<Byte>)
    ensures |r| % BLOCK == 0
  {
    m + [0x80] + Zeros(ZeroCount(|m|)) + BigEndian(8 * |m|, 8)
  }

  function Hash(m: seq<Byte>): (r: seq<Word>)
    ensures |r| == 8
  {
    Absorb(Pad(m))
  }

  // Lower-case hexadecimal, most significant digit first.

  const DIGITS := "0123456789abcdef"

  /** Digit i of eight, counted from the most significant. */
  function Nibble(w: Word, i: nat): bv4
    requires i < 8
  {
    if i == 0 then (w >> 28) as bv4
    else if i == 1 then ((w >> 24) & 0xF) as bv4
    else if i == 2 then ((w >> 20) & 0xF) as bv4
    else if i == 3 then ((w >> 16) & 0xF) as bv4
    else if i == 4 then ((w >> 12) & 0xF) as bv4
    else if i == 5 then ((w >> 8) & 0xF) as bv4
    else if i == 6 then ((w >> 4) & 0xF) as bv4
    else (w & 0xF) as bv4
  }

  function HexWord(w: Word): (r: string)
    ensures |r| == 8 && forall i :: 0 <= i < 8 ==> r[i] == DIGITS[Nibble(w, i) as nat]
  {
    seq(8, i requires 0 <= i < 8 => DIGITS[Nibble(w, i) as nat])
  }

  function Hex(ws: seq<Word>): (r: string)
    ensures |r| == 8 * |ws|
  {
    if ws == [] then "" else Hex(ws[..|ws| - 1]) + HexWord(ws[|ws| - 1])
  }

  function Digest(m: seq<Byte>): string { Hex(Hash(m)) }
}
