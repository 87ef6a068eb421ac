/** The Q6_K block decoder (src/kernels/ggml_q4_k_reference.cpp): pointers walked over two halves of a
    block, four outputs written at a time. */
module KQuantSix {
  import opened CheckedArithmetic
  import opened KQuant
  import opened HalfFloat
  import opened SinglePrecision

  type Int8 = n: int | -128 <= n < 128

  datatype Q6Block = Q6Block(delta: u16, low: seq<Byte>, high: seq<Byte>, scales: seq<Int8>)

  predicate Q6Valid(b: Q6Block) { |b.low| == 128 && |b.high| == 64 && |b.scales| == 16 }

  // ----- six bits from two arrays -----

  /** Four bits of `l` and the quadrant's two of `h`. */
  function SixOf(quadrant: nat, l: Byte, h: Byte): Byte
    requires quadrant < 4
  {
    if quadrant == 0 then (l & 0x0F) | ((h & 0x03) << 4)
    else if quadrant == 1 then (l & 0x0F) | (((h >> 2) & 0x03) << 4)
    else if quadrant == 2 then (l >> 4) | (((h >> 4) & 0x03) << 4)
    else (l >> 4) | (((h >> 6) & 0x03) << 4)
  }

  function Quant(six: Byte): int { six as int - 32 }

  function Product(delta: Single, scale: Int8, quant: int): Single { Times(Times(delta, scale), quant) }

  /** Index `i` of a quadrant of 32 in a half. */
  function Q6Term(b: Q6Block, half: nat, quadrant: nat, i: nat): Single
    requires Q6Valid(b) && half < 2 && quadrant < 4 && i < 32
  {
    Product(FromHalf(b.delta), b.scales[8 * half + 2 * quadrant + i / 16],
            Quant(SixOf(quadrant, b.low[64 * half + quadrant % 2 * 32 + i], b.high[32 * half + i])))
  }

  /** The quantised number at position `p` of a block. */
  function Q6Quant(b: Q6Block, p: nat): int
    requires Q6Valid(b) && p < 256
  {
    Quant(SixOf(p % 128 / 32, b.low[p / 128 * 64 + p % 64], b.high[p / 128 * 32 + p % 32]))
  }

  /** The value at position `p` of a block: the scale is that of its group of 16. */
  function Q6At(b: Q6Block, p: nat): Single
    requires Q6Valid(b) && p < 256
  {
    Product(FromHalf(b.delta), b.scales[p / 16], Q6Quant(b, p))
  }

  lemma ByPosition(b: Q6Block, half: nat, quadrant: nat, i: nat)
    requires Q6Valid(b) && half < 2 && quadrant < 4 && i < 32
    ensures Q6Term(b, half, quadrant, i) == Q6At(b, 128 * half + 32 * quadrant + i)
  {
    hide Product, SixOf, FromHalf;
    var p := 128 * half + 32 * quadrant + i;
    assert p / 128 == half && p % 128 == 32 * quadrant + i && p % 128 / 32 == quadrant && p % 32 == i;
    assert p / 16 == 8 * half + 2 * quadrant + i / 16;
    assert p % 64 == quadrant % 2 * 32 + i;
  }

  // ----- the loops -----

  /** What one pass of the inner loop writes at `output`, and the positions it writes. */
  method WriteFour(b: Q6Block, delta: Single, half: nat, i: nat, values: array<Single>, output: nat)
    requires Q6Valid(b) && delta == FromHalf(b.delta) && half < 2 && i < 32 && output + 128 <= values.Length
    modifies values
    ensures forall q :: 0 <= q < 4 ==> values[output + 32 * q + i] == Q6Term(b, half, q, i)
    ensures forall p :: 0 <= p < values.Length && !IsFour(p, output, i) ==> values[p] == old(values[p])
  {
    hide Product, SixOf, Quant, FromHalf;
    var low, high, scale := 64 * half, 32 * half, 8 * half;
    var scaleIndex := i / 16;
    var packed := b.high[high + i];
    var q1 := Quant(SixOf(0, b.low[low + i], packed));
    var q2 := Quant(SixOf(1, b.low[low + i + 32], packed));
    var q3 := Quant(SixOf(2, b.low[low + i], packed));
    var q4 := Quant(SixOf(3, b.low[low + i + 32], packed));
    values[output + i] := Product(delta, b.scales[scale + scaleIndex + 0], q1);
    values[output + i + 32] := Product(delta, b.scales[scale + scaleIndex + 2], q2);
    values[output + i + 64] := Product(delta, b.scales[scale + scaleIndex + 4], q3);
    values[output + i + 96] := Product(delta, b.scales[scale + scaleIndex + 6], q4);
  }

  predicate IsFour(p: int, output: nat, i: nat) { output <= p < output + 128 && (p - output) % 32 == i }

  /** Each position of a block belongs to one pass only. */
  lemma WrittenOnce(p: nat, half: nat, i: nat)
    requires p < 256 && half < 2 && i < 32
    ensures IsFour(p, 128 * half, i) <==> half == p / 128 && i == p % 32
  {}

  /** The difference fits the signed byte it is stored in. */
  lemma QuantFits(quadrant: nat, l: Byte, h: Byte)
    requires quadrant < 4
    ensures -32 <= Quant(SixOf(quadrant, l, h)) < 32
  {
    var six := SixOf(quadrant, l, h);
    assert six < 64;
    hide SixOf;
    assert six as int < (64 as Byte) as int;
  }

  /** One half of a block: every position of the half is written by exactly one pass. */
  method DecodeHalf(b: Q6Block, delta: Single, half: nat, values: array<Single>, output: nat)
    requires Q6Valid(b) && delta == FromHalf(b.delta) && half < 2 && output + 128 <= values.Length
    modifies values
    ensures forall q, i :: 0 <= q < 4 && 0 <= i < 32 ==> values[output + 32 * q + i] == Q6Term(b, half, q, i)
    ensures values[..output] == old(values[..output]) && values[output + 128..] == old(values[output + 128..])
  {
    hide Q6Term, FromHalf, IsFour;
    for index := 0 to 32
      invariant forall q, i :: 0 <= q < 4 && 0 <= i < index ==> values[output + 32 * q + i] == Q6Term(b, half, q, i)
      invariant forall p :: 0 <= p < values.Length && !(output <= p < output + 128) ==> values[p] == old(values[p])
    {
      ghost var before := values[..];
      WriteFour(b, delta, half, index, values, output);
      forall q, i | 0 <= q < 4 && 0 <= i < index + 1 ensures values[output + 32 * q + i] == Q6Term(b, half, q, i) {
        if i < index {
          OtherPass(output, q, i, index);
          assert values[output + 32 * q + i] == before[output + 32 * q + i];
        }
      }
      forall p | 0 <= p < values.Length && !(output <= p < output + 128) ensures values[p] == before[p] {
        OtherHalf(p, output, index);
      }
    }
  }

  lemma OtherPass(output: nat, q: nat, i: nat, index: nat)
    requires q < 4 && i < 32 && index < 32 && i != index
    ensures !IsFour(output + 32 * q + i, output, index)
  {
    assert (32 * q + i) % 32 == i;
  }

  lemma OtherHalf(p: nat, output: nat, index: nat)
    requires !(output <= p < output + 128)
    ensures !IsFour(p, output, index)
  {}

  method DecodeQ6Block(b: Q6Block, values: array<Single>, output: nat)
    requires Q6Valid(b) && output + 256 <= values.Length
    modifies values
    ensures forall p :: 0 <= p < 256 ==> values[output + p] == Q6At(b, p)
    ensures values[..output] == old(values[..output])
  {
    hide Q6Term, Q6At, FromHalf, Meaning;
    var bits := Fp16ToFloat(b.delta);
    var delta := Meaning(bits);
    DecodeHalf(b, delta, 0, values, output);
    ghost var first := values[..];
    DecodeHalf(b, delta, 1, values, output + 128);
    forall p | 0 <= p < 256 ensures values[output + p] == Q6At(b, p) {
      var half, q, i := p / 128, p % 128 / 32, p % 32;
      assert p == 128 * half + 32 * q + i;
      ByPosition(b, half, q, i);
      if half == 0 {
        assert values[output + p] == values[..output + 128][output + p] == first[output + 32 * q + i];
      }
    }
    assert values[..output] == values[..output + 128][..output];
  }

  /** decode_ggml_q6_k_reference */
  method DecodeQ6K(blocks: seq<Q6Block>, maximumBytes: u64, largest: nat, memory: bool) returns (r: Decoded)
    requires |blocks| <= U64_MAX && forall i :: 0 <= i < |blocks| ==> Q6Valid(blocks[i])
    ensures var limits := DecodeLimits(|blocks|, maximumBytes, largest);
      if !limits.Within? then r == Refused(limits)
      else if !memory then r == AllocationFailed
      else r.Decoded? && |r.values| == limits.values == 256 * |blocks|
           && forall p :: 0 <= p < 256 * |blocks| ==> r.values[p] == Q6At(blocks[p / 256], p % 256)
  {
    hide Q6At;
    var limits := DecodeLimits(|blocks|, maximumBytes, largest);
    if !limits.Within? { return Refused(limits); }
    if !memory { return AllocationFailed; }
    var values := new Single[limits.values];
    var output := 0;
    for i := 0 to |blocks|
      invariant output == 256 * i
      invariant forall p :: 0 <= p < 256 * i ==> values[p] == Q6At(blocks[p / 256], p % 256)
    {
      ghost var before := values[..output];
      DecodeQ6Block(blocks[i], values, output);
      forall p | 0 <= p < 256 * i + 256 ensures values[p] == Q6At(blocks[p / 256], p % 256) {
        if p < 256 * i {
          assert values[p] == values[..output][p] == before[p];
        } else {
          assert p / 256 == i && p % 256 == p - 256 * i && values[p] == values[output + p % 256];
        }
      }
      output := output + 256;
    }
    return Decoded(values[..]);
  }

  // ----- packing four six-bit values into three bytes is a bijection -----

  function LowPair(a: Byte, c: Byte): Byte { (a & 0x0F) | (c << 4) }

  function HighFour(a: Byte, b: Byte, c: Byte, d: Byte): Byte {
    (a >> 4) | ((b >> 4) << 2) | ((c >> 4) << 4) | ((d >> 4) << 6)
  }

  lemma SixesComeBack(a: Byte, b: Byte, c: Byte, d: Byte)
    requires a < 64 && b < 64 && c < 64 && d < 64
    ensures var h := HighFour(a, b, c, d);
      && SixOf(0, LowPair(a, c), h) == a && SixOf(1, LowPair(b, d), h) == b
      && SixOf(2, LowPair(a, c), h) == c && SixOf(3, LowPair(b, d), h) == d
  {}

  lemma BytesComeBack(l0: Byte, l1: Byte, h: Byte)
    ensures var a, b, c, d := SixOf(0, l0, h), SixOf(1, l1, h), SixOf(2, l0, h), SixOf(3, l1, h);
      && a < 64 && b < 64 && c < 64 && d < 64
      && LowPair(a, c) == l0 && LowPair(b, d) == l1 && HighFour(a, b, c, d) == h
  {}
}
