/** The byte-level readers of scripts/inventory-gguf.py, each with the encoding it undoes. A file is
    a byte sequence; the size handed to the readers is the one seen when it was opened. */
module GgufBytes {
  import opened CheckedArithmetic

  datatype Error =
    | HeaderTruncated | MagicRejected | UnpackFailed | VersionRejected | TensorCountRejected
    | MetadataCountRejected
    | ContainerTruncated | ContainerShortRead | StringLengthRejected | StringUtf8Rejected
    | MetadataBytesRejected | MetadataTypeRejected | ArrayCountRejected(count: nat) | ArrayTypeRejected
    | MetadataKeyDuplicate | AlignmentTypeRejected | AlignmentRejected | TensorInfoBytesRejected
    | TensorNameDuplicate | TensorRankRejected | TensorShapeRejected | TensorTypeRejected | TensorInfoTruncated

  /** A value read and the offset after it. */
  datatype Read<T> = Got(value: T, next: nat) | Fail(error: Error)

  const MAX_STRING_BYTES := 16 * 1024 * 1024

  // ----- encodings -----

  function LittleEndian(bs: seq<u8>): nat {
    if bs == [] then 0 else bs[0] + 256 * LittleEndian(bs[1..])
  }

  function Bytes(n: nat, width: nat): (r: seq<u8>)
    ensures |r| == width
  {
    if width == 0 then [] else [n % 256] + Bytes(n / 256, width - 1)
  }

  function Pow256(n: nat): nat { if n == 0 then 1 else 256 * Pow256(n - 1) }

  lemma {:induction false} BytesOfLittleEndian(bs: seq<u8>)
    ensures Bytes(LittleEndian(bs), |bs|) == bs && LittleEndian(bs) < Pow256(|bs|)
  {
    if bs != [] {
      BytesOfLittleEndian(bs[1..]);
      assert bs == [bs[0]] + bs[1..];
    }
  }

  lemma {:induction false} LittleEndianOfBytes(n: nat, width: nat)
    requires n < Pow256(width)
    ensures LittleEndian(Bytes(n, width)) == n
  {
    if width > 0 {
      LittleEndianOfBytes(n / 256, width - 1);
      assert Bytes(n, width)[1..] == Bytes(n / 256, width - 1);
    }
  }

  predicate Cont(b: u8) { 0x80 <= b < 0xC0 }

  /** Well-formed UTF-8 as in section 4 of RFC 3629. */
  predicate Utf8(s: seq<u8>) {
    if s == [] then true
    else if s[0] < 0x80 then Utf8(s[1..])
    else if 0xC2 <= s[0] < 0xE0 then |s| >= 2 && Cont(s[1]) && Utf8(s[2..])
    else if 0xE0 <= s[0] < 0xF0 then
      && |s| >= 3 && Cont(s[1]) && Cont(s[2])
      && (s[0] == 0xE0 ==> s[1] >= 0xA0) && (s[0] == 0xED ==> s[1] < 0xA0)
      && Utf8(s[3..])
    else if 0xF0 <= s[0] < 0xF5 then
      && |s| >= 4 && Cont(s[1]) && Cont(s[2]) && Cont(s[3])
      && (s[0] == 0xF0 ==> s[1] >= 0x90) && (s[0] == 0xF4 ==> s[1] < 0x90)
      && Utf8(s[4..])
    else false
  }

  function EncodedString(s: seq<u8>): seq<u8> { Bytes(|s|, 8) + s }

  /** The bytes `e` stand at `offset`, within the size and the file. */
  predicate Holds(b: seq<u8>, size: nat, offset: nat, e: seq<u8>) {
    offset + |e| <= size && offset + |e| <= |b| && b[offset..offset + |e|] == e
  }

  lemma HoldsBoth(b: seq<u8>, size: nat, offset: nat, d: seq<u8>, e: seq<u8>)
    ensures Holds(b, size, offset, d + e) <==> Holds(b, size, offset, d) && Holds(b, size, offset + |d|, e)
  {
    if offset + |d| + |e| <= |b| {
      assert b[offset..offset + |d + e|] == b[offset..offset + |d|] + b[offset + |d|..offset + |d| + |e|];
      if b[offset..offset + |d + e|] == d + e {
        assert b[offset..offset + |d|] == (d + e)[..|d|] && b[offset + |d|..offset + |d| + |e|] == (d + e)[|d|..];
      }
    }
  }

  // ----- readers -----

  function ReadExact(b: seq<u8>, offset: nat, length: nat, size: nat): Read<seq<u8>> {
    if offset + length > size then Fail(ContainerTruncated)
    else if offset + length <= |b| then Got(b[offset..offset + length], offset + length)
    else if length == 0 then Got([], offset)
    else Fail(ContainerShortRead)
  }

  function ReadInteger(b: seq<u8>, offset: nat, width: nat, size: nat): Read<nat> {
    match ReadExact(b, offset, width, size)
    case Fail(e) => Fail(e)
    case Got(data, next) => Got(LittleEndian(data), next)
  }

  function ReadU32(b: seq<u8>, offset: nat, size: nat): Read<nat> { ReadInteger(b, offset, 4, size) }

  function ReadU64(b: seq<u8>, offset: nat, size: nat): Read<nat> { ReadInteger(b, offset, 8, size) }

  function ReadString(b: seq<u8>, offset: nat, size: nat, maximum: nat): Read<seq<u8>> {
    match ReadU64(b, offset, size)
    case Fail(e) => Fail(e)
    case Got(length, next) =>
      if length > maximum then Fail(StringLengthRejected)
      else
        match ReadExact(b, next, length, size)
        case Fail(e) => Fail(e)
        case Got(data, after) => if Utf8(data) then Got(data, after) else Fail(StringUtf8Rejected)
  }

  // ----- a reader succeeds exactly on the encoding of its value -----

  /** Behind the end of a file that shrank, only the empty read succeeds. */
  lemma ReadExactIff(b: seq<u8>, offset: nat, size: nat, data: seq<u8>)
    ensures ReadExact(b, offset, |data|, size) == Got(data, offset + |data|)
       <==> Holds(b, size, offset, data) || (data == [] && |b| < offset <= size)
  {}

  lemma {:induction false} ReadIntegerIff(b: seq<u8>, offset: nat, width: nat, size: nat, n: nat, next: nat)
    requires width > 0
    ensures ReadInteger(b, offset, width, size) == Got(n, next)
       <==> n < Pow256(width) && next == offset + width && Holds(b, size, offset, Bytes(n, width))
  {
    if ReadInteger(b, offset, width, size) == Got(n, next) {
      BytesOfLittleEndian(b[offset..offset + width]);
    }
    if n < Pow256(width) && Holds(b, size, offset, Bytes(n, width)) {
      LittleEndianOfBytes(n, width);
    }
  }

  lemma {:induction false} ReadStringIff(
      b: seq<u8>, offset: nat, size: nat, maximum: nat, s: seq<u8>, next: nat)
    requires offset <= |b| && maximum < Pow256(8)
    ensures ReadString(b, offset, size, maximum) == Got(s, next)
       <==> && |s| <= maximum && Utf8(s) && next == offset + |EncodedString(s)|
            && Holds(b, size, offset, EncodedString(s))
  {
    hide Utf8, ReadInteger, ReadExact, Pow256;
    HoldsBoth(b, size, offset, Bytes(|s|, 8), s);
    ReadIntegerIff(b, offset, 8, size, |s|, offset + 8);
    if offset + 8 <= |b| {
      ReadExactIff(b, offset + 8, size, s);
    }
    var length := ReadU64(b, offset, size);
    if length.Got? {
      ReadIntegerIff(b, offset, 8, size, length.value, length.next);
      ReadExactLength(b, length.next, length.value, size);
    }
  }

  lemma ReadExactLength(b: seq<u8>, offset: nat, length: nat, size: nat)
    ensures var r := ReadExact(b, offset, length, size); r.Got? ==> |r.value| == length && r.next == offset + length
  {}
}
