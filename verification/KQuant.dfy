/** The Q4_K block decoder (src/kernels/ggml_q4_k_reference.cpp), in single precision on the blocks'
    own half-precision bits. */
module KQuant {
  import opened CheckedArithmetic
  import opened HalfFloat
  import opened SinglePrecision

  const VALUES_PER_BLOCK := 256

  // ----- limits -----

  datatype Limits = Within(values: nat) | ValueCountOverflow | ValueLimitExceeded | ByteCountOverflow | ByteLimitExceeded

  /** validate_decode_limits; `largest` is the longest vector the library can make. */
  function DecodeLimits(blocks: u64, maximumBytes: u64, largest: nat): Limits {
    if blocks > U64_MAX / VALUES_PER_BLOCK then ValueCountOverflow
    else if blocks * VALUES_PER_BLOCK > largest then ValueLimitExceeded
    else if blocks * VALUES_PER_BLOCK > U64_MAX / 4 then ByteCountOverflow
    else if blocks * VALUES_PER_BLOCK * 4 > maximumBytes then ByteLimitExceeded
    else Within(blocks * VALUES_PER_BLOCK)
  }

  /** Allowed if and only if the exact sizes fit; no product overflows on the way. */
  lemma LimitsAreExact(blocks: u64, maximumBytes: u64, largest: nat)
    ensures DecodeLimits(blocks, maximumBytes, largest).Within?
       <==> blocks * 256 <= largest && blocks * 1024 <= maximumBytes
    ensures DecodeLimits(blocks, maximumBytes, largest).Within? ==>
      DecodeLimits(blocks, maximumBytes, largest).values == blocks * 256
  {}

  // ----- Q4_K: eight sub-blocks of 32, each with a 6-bit scale and a 6-bit minimum -----

  datatype Q4Block = Q4Block(delta: u16, minimum: u16, scales: seq<Byte>, quants: seq<Byte>)

  predicate Q4Valid(b: Q4Block) { |b.scales| == 12 && |b.quants| == 128 }

  /** decode_scale_and_minimum */
  function ScaleAndMinimum(scales: seq<Byte>, subblock: nat): (Byte, Byte)
    requires |scales| == 12 && subblock < 8
  {
    if subblock < 4 then (Six(scales[subblock]), Six(scales[subblock + 4]))
    else (LowUnder(scales[subblock + 4], scales[subblock - 4]), HighUnder(scales[subblock + 4], scales[subblock]))
  }

  function Six(x: Byte): Byte { x & 0x3F }

  /** The low, or the high, four bits of `y` under the top two of `x`. */
  function LowUnder(y: Byte, x: Byte): Byte { (y & 0x0F) | ((x >> 6) << 4) }
  function HighUnder(y: Byte, x: Byte): Byte { (y >> 4) | ((x >> 6) << 4) }

  /** The value at place `v` of a sub-block. */
  function Q4Term(b: Q4Block, subblock: nat, v: nat): Single
    requires Q4Valid(b) && subblock < 8 && v < 32
  {
    var (scale, minimum) := ScaleAndMinimum(b.scales, subblock);
    var packed := b.quants[subblock / 2 * 32 + v];
    var quant := if subblock % 2 != 0 then packed >> 4 else packed & 0x0F;
    Minus(Times(Times(FromHalf(b.delta), scale as int), quant as int), Times(FromHalf(b.minimum), minimum as int))
  }

  /** The value at position `p` of a block. */
  function Q4At(b: Q4Block, p: nat): Single
    requires Q4Valid(b) && p < 256
  {
    Q4Term(b, p / 32, p % 32)
  }

  method DecodeQ4Subblock(b: Q4Block, delta: Single, minimum: Single, subblock: nat, before: seq<Single>)
    returns (values: seq<Single>)
    requires Q4Valid(b) && subblock < 8 && delta == FromHalf(b.delta) && minimum == FromHalf(b.minimum)
    ensures |values| == |before| + 32 && values[..|before|] == before
    ensures forall v :: 0 <= v < 32 ==> values[|before| + v] == Q4Term(b, subblock, v)
  {
    hide Times, Minus, FromHalf, ScaleAndMinimum;
    var (scale, minimumScale) := ScaleAndMinimum(b.scales, subblock);
    var scaledDelta := Times(delta, scale as int);
    var scaledMinimum := Times(minimum, minimumScale as int);
    var quantOffset := subblock / 2 * 32;
    var highNibble := subblock % 2 != 0;
    values := before;
    for value := 0 to 32
      invariant |values| == |before| + value && values[..|before|] == before
      invariant forall v :: 0 <= v < value ==> values[|before| + v] == Q4Term(b, subblock, v)
    {
      var packed := b.quants[quantOffset + value];
      var quant := if highNibble then packed >> 4 else packed & 0x0F;
      values := values + [Minus(Times(scaledDelta, quant as int), scaledMinimum)];
    }
  }

  method DecodeQ4Block(b: Q4Block, before: seq<Single>) returns (values: seq<Single>)
    requires Q4Valid(b)
    ensures |values| == |before| + 256 && values[..|before|] == before
    ensures forall p :: 0 <= p < 256 ==> values[|before| + p] == Q4At(b, p)
  {
    hide FromHalf, Meaning;
    var deltaBits := Fp16ToFloat(b.delta);
    var minimumBits := Fp16ToFloat(b.minimum);
    var delta, minimum := Meaning(deltaBits), Meaning(minimumBits);
    values := before;
    for subblock := 0 to 8
      invariant |values| == |before| + 32 * subblock && values[..|before|] == before
      invariant forall p :: 0 <= p < 32 * subblock ==> values[|before| + p] == Q4At(b, p)
    {
      hide Q4Term;
      ghost var earlier := values;
      values := DecodeQ4Subblock(b, delta, minimum, subblock, values);
      forall p | 0 <= p < 32 * subblock + 32 ensures values[|before| + p] == Q4At(b, p) {
        if p < 32 * subblock {
          assert values[|before| + p] == earlier[|before| + p];
        } else {
          assert p / 32 == subblock && p % 32 == p - 32 * subblock;
        }
      }
    }
  }

  datatype Decoded = Decoded(values: seq<Single>) | Refused(limits: Limits) | AllocationFailed

  /** decode_ggml_q4_k_reference; `memory` tells whether the vector could be allocated. */
  method DecodeQ4K(blocks: seq<Q4Block>, maximumBytes: u64, largest: nat, memory: bool) returns (r: Decoded)
    requires |blocks| <= U64_MAX && forall i :: 0 <= i < |blocks| ==> Q4Valid(blocks[i])
    ensures var limits := DecodeLimits(|blocks|, maximumBytes, largest);
      if !limits.Within? then r == Refused(limits)
      else if !memory then r == AllocationFailed
      else r.Decoded? && |r.values| == limits.values == 256 * |blocks|
           && forall p :: 0 <= p < 256 * |blocks| ==> r.values[p] == Q4At(blocks[p / 256], p % 256)
  {
    hide Q4At;
    var limits := DecodeLimits(|blocks|, maximumBytes, largest);
    if !limits.Within? { return Refused(limits); }
    if !memory { return AllocationFailed; }
    var values: seq<Single> := [];
    for i := 0 to |blocks|
      invariant |values| == 256 * i
      invariant forall p :: 0 <= p < 256 * i ==> values[p] == Q4At(blocks[p / 256], p % 256)
    {
      ghost var earlier := values;
      values := DecodeQ4Block(blocks[i], values);
      forall p | 0 <= p < 256 * i + 256 ensures values[p] == Q4At(blocks[p / 256], p % 256) {
        if p < 256 * i {
          assert values[p] == earlier[p];
        } else {
          assert p / 256 == i && p % 256 == p - 256 * i && values[p] == values[|earlier| + p % 256];
        }
      }
    }
    return Decoded(values);
  }

  // ----- packing the Q4_K scales is a bijection -----

  function PackedByte(s: seq<Byte>, m: seq<Byte>, j: nat): Byte
    requires |s| == |m| == 8 && j < 12
  {
    if j < 4 then Topped(s[j], s[j + 4])
    else if j < 8 then Topped(m[j - 4], m[j])
    else Nibbles(s[j - 4], m[j - 4])
  }

  function PackedScales(s: seq<Byte>, m: seq<Byte>): (r: seq<Byte>)
    requires |s| == |m| == 8
    ensures |r| == 12 && forall j :: 0 <= j < 12 ==> r[j] == PackedByte(s, m, j)
  {
    seq(12, j requires 0 <= j < 12 => PackedByte(s, m, j))
  }

  /** Six bits of `low` under the top two of `high`. */
  function Topped(low: Byte, high: Byte): Byte { low | ((high >> 4) << 6) }

  /** The low four bits of each. */
  function Nibbles(low: Byte, high: Byte): Byte { (low & 0x0F) | ((high & 0x0F) << 4) }

  lemma FieldsOf(a: Byte, b: Byte, c: Byte)
    requires a < 64 && b < 64
    ensures Six(Topped(a, b)) == a && LowUnder(Nibbles(b, c), Topped(a, b)) == b && HighUnder(Nibbles(c, b), Topped(a, b)) == b
  {}

  lemma FieldsMake(x: Byte, y: Byte)
    ensures Six(x) < 64 && LowUnder(y, x) < 64 && HighUnder(y, x) < 64
    ensures Topped(Six(x), LowUnder(y, x)) == x && Topped(Six(x), HighUnder(y, x)) == x
  {}

  lemma NibblesMake(x: Byte, z: Byte, y: Byte)
    ensures Nibbles(LowUnder(y, x), HighUnder(y, z)) == y
  {}

  predicate SixBits(s: seq<Byte>) { forall i :: 0 <= i < |s| ==> s[i] < 64 }

  lemma UnpackingUndoesPacking(s: seq<Byte>, m: seq<Byte>, subblock: nat)
    requires |s| == |m| == 8 && SixBits(s) && SixBits(m) && subblock < 8
    ensures ScaleAndMinimum(PackedScales(s, m), subblock) == (s[subblock], m[subblock])
  {
    var k := subblock % 4;
    FieldsOf(s[k], s[k + 4], m[k + 4]);
    FieldsOf(m[k], m[k + 4], s[k + 4]);
    hide Topped, Nibbles, Six, LowUnder, HighUnder, PackedScales;
  }

  function Scales(packed: seq<Byte>): (r: seq<Byte>)
    requires |packed| == 12
    ensures |r| == 8 && forall i :: 0 <= i < 8 ==> r[i] == ScaleAndMinimum(packed, i).0
  {
    seq(8, i requires 0 <= i < 8 => ScaleAndMinimum(packed, i).0)
  }

  function Minimums(packed: seq<Byte>): (r: seq<Byte>)
    requires |packed| == 12
    ensures |r| == 8 && forall i :: 0 <= i < 8 ==> r[i] == ScaleAndMinimum(packed, i).1
  {
    seq(8, i requires 0 <= i < 8 => ScaleAndMinimum(packed, i).1)
  }

  /** The k-th byte of each group of four comes back. */
  lemma PackedBack(packed: seq<Byte>, k: nat)
    requires |packed| == 12 && k < 4
    ensures var s, m := Scales(packed), Minimums(packed);
      && Topped(s[k], s[k + 4]) == packed[k] && Topped(m[k], m[k + 4]) == packed[k + 4]
      && Nibbles(s[k + 4], m[k + 4]) == packed[k + 8]
      && s[k] < 64 && s[k + 4] < 64 && m[k] < 64 && m[k + 4] < 64
  {
    FieldsMake(packed[k], packed[k + 8]);
    FieldsMake(packed[k + 4], packed[k + 8]);
    NibblesMake(packed[k], packed[k + 4], packed[k + 8]);
    hide Topped, Nibbles, Six, LowUnder, HighUnder, Scales, Minimums;
  }

  lemma PackingUndoesUnpacking(packed: seq<Byte>)
    requires |packed| == 12
    ensures PackedScales(Scales(packed), Minimums(packed)) == packed
    ensures SixBits(Scales(packed)) && SixBits(Minimums(packed))
  {
    hide Topped, Nibbles, Scales, Minimums, ScaleAndMinimum, PackedScales;
    var s, m := Scales(packed), Minimums(packed);
    forall j | 0 <= j < 12 ensures PackedByte(s, m, j) == packed[j] {
      PackedBack(packed, j % 4);
    }
    forall j | 0 <= j < 8 ensures s[j] < 64 && m[j] < 64 {
      PackedBack(packed, j % 4);
    }
  }
}
