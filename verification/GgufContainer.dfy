/** scan_container (scripts/inventory-gguf.py): exactly which files it accepts, and with what. */
module GgufContainer {
  import opened CheckedArithmetic
  import opened GgufBytes
  import opened GgufTensors
  import opened GgufMetadata
  import opened GgufBits

  const MAX_TENSORS := 100_000
  const MAX_METADATA_BYTES := 64 * 1024 * 1024
  const METADATA_LIMIT := 24 + MAX_METADATA_BYTES
  const MAGIC: seq<u8> := [71, 71, 85, 70]

  datatype Preamble = Preamble(version: nat, tensorCount: nat, metadataCount: nat)

  datatype Scanned =
    | Accepted(preamble: Preamble, alignment: nat, dataOffset: nat, headers: seq<Header>)
    | Rejected(error: Error)

  function EncodedPreamble(p: Preamble): (r: seq<u8>)
    ensures |r| == 24
  {
    MAGIC + (Bytes(p.version, 4) + (Bytes(p.tensorCount, 8) + Bytes(p.metadataCount, 8)))
  }

  predicate PreambleOk(p: Preamble) {
    (p.version == 2 || p.version == 3) && 0 < p.tensorCount <= MAX_TENSORS && p.metadataCount <= MAX_TENSORS
  }

  /** The preamble, once `file_size` and the magic have been checked. */
  function Unpacked(b: seq<u8>): Preamble
    requires |b| >= 24
  {
    Preamble(LittleEndian(b[4..8]), LittleEndian(b[8..16]), LittleEndian(b[16..24]))
  }

  /** parse_preamble */
  function ReadPreamble(b: seq<u8>, size: nat): Read<Preamble> {
    if size < 24 then Fail(HeaderTruncated)
    else if !(MAGIC <= b) then Fail(MagicRejected)
    else if |b| < 24 then Fail(UnpackFailed)
    else
      var p := Unpacked(b);
      if p.version != 2 && p.version != 3 then Fail(VersionRejected)
      else if p.tensorCount == 0 || p.tensorCount > MAX_TENSORS then Fail(TensorCountRejected)
      else if p.metadataCount > MAX_TENSORS then Fail(MetadataCountRejected)
      else Got(p, 24)
  }

  predicate AlignmentOk(a: nat) { 1 <= a <= 65536 && And(a, a - 1) == 0 }

  function RoundUp(offset: nat, a: nat): nat
    requires a >= 1
  {
    AndNot(offset + a - 1, a - 1)
  }

  function ScanTensors(b: seq<u8>, size: nat, p: Preamble, offset: nat, alignment: nat): Scanned {
    if !AlignmentOk(alignment) then Rejected(AlignmentRejected)
    else if p.tensorCount > MAX_TENSOR_INFO_BYTES / 32 then Rejected(TensorInfoBytesRejected)
    else
      match ReadHeaders(b, offset, size, p.tensorCount, offset, [])
      case Fail(e) => Rejected(e)
      case Got(headers, next) =>
        var dataOffset := RoundUp(next, alignment);
        if dataOffset > size then Rejected(TensorInfoTruncated)
        else Accepted(p, alignment, dataOffset, headers)
  }

  function Scan(b: seq<u8>, size: nat): Scanned {
    match ReadPreamble(b, size)
    case Fail(e) => Rejected(e)
    case Got(p, offset) =>
      match ReadEntries(b, offset, size, p.metadataCount, METADATA_LIMIT, [])
      case Fail(e) => Rejected(e)
      case Got(entries, next) => ScanTensors(b, size, p, next, AlignmentOf(entries))
  }

  // ----- the layout of an accepted file -----

  /** Everything before the tensor data. */
  function Encoded(p: Preamble, es: seq<Entry>, hs: seq<Header>): seq<u8> {
    EncodedPreamble(p) + (EncodedEntries(es) + EncodedHeaders(hs))
  }

  ghost predicate WellFormed(p: Preamble, es: seq<Entry>, hs: seq<Header>) {
    && PreambleOk(p) && |es| == p.metadataCount && |hs| == p.tensorCount
    && AllEntriesOk(es) && FreshKeys([], es) && AllOk(hs) && FreshNames([], hs)
    && PowerOfTwo(AlignmentOf(es)) && AlignmentOf(es) <= 65536
    && |EncodedEntries(es)| <= MAX_METADATA_BYTES && |EncodedHeaders(hs)| <= MAX_TENSOR_INFO_BYTES
  }

  ghost predicate Describes(r: Scanned, b: seq<u8>, size: nat, es: seq<Entry>) {
    && r.Accepted? && WellFormed(r.preamble, es, r.headers)
    && r.alignment == AlignmentOf(es) >= 1
    && RoundedUp(|Encoded(r.preamble, es, r.headers)|, r.alignment, r.dataOffset)
    && r.dataOffset <= size && Holds(b, size, 0, Encoded(r.preamble, es, r.headers))
  }

  lemma {:induction false} ReadPreambleIff(b: seq<u8>, size: nat, p: Preamble)
    ensures ReadPreamble(b, size) == Got(p, 24) <==> PreambleOk(p) && Holds(b, size, 0, EncodedPreamble(p))
  {
    PowersAre();
    hide Pow256, Bytes, LittleEndian;
    var v, t, m := Bytes(p.version, 4), Bytes(p.tensorCount, 8), Bytes(p.metadataCount, 8);
    if |b| >= 24 && size >= 24 {
      assert Holds(b, size, 0, EncodedPreamble(p)) <==> b[..4] == MAGIC && b[4..8] == v && b[8..16] == t && b[16..24] == m by {
        HoldsBoth(b, size, 0, MAGIC, v + (t + m));
        HoldsBoth(b, size, 4, v, t + m);
        HoldsBoth(b, size, 8, t, m);
      }
      IntegerIs(b[4..8], p.version);
      IntegerIs(b[8..16], p.tensorCount);
      IntegerIs(b[16..24], p.metadataCount);
      assert MAGIC <= b <==> b[..4] == MAGIC;
    }
  }

  lemma IntegerIs(bs: seq<u8>, n: nat)
    ensures LittleEndian(bs) == n <==> n < Pow256(|bs|) && bs == Bytes(n, |bs|)
  {
    BytesOfLittleEndian(bs);
    if n < Pow256(|bs|) { LittleEndianOfBytes(n, |bs|); }
  }

  lemma AlignmentIsPower(a: nat)
    ensures AlignmentOk(a) <==> 1 <= a <= 65536 && PowerOfTwo(a)
  {
    if a >= 1 { PowerOfTwoTest(a); }
  }

  /** The tensor part of the law. */
  lemma {:induction false} ScanTensorsIff(b: seq<u8>, size: nat, p: Preamble, offset: nat, a: nat, r: Scanned)
    requires PreambleOk(p) && offset <= |b| && offset <= size && r.Accepted?
    ensures ScanTensors(b, size, p, offset, a) == r
       <==> && r.preamble == p && r.alignment == a && 1 <= a <= 65536 && PowerOfTwo(a)
            && |r.headers| == p.tensorCount && AllOk(r.headers) && FreshNames([], r.headers)
            && Holds(b, size, offset, EncodedHeaders(r.headers)) && |EncodedHeaders(r.headers)| <= MAX_TENSOR_INFO_BYTES
            && RoundedUp(offset + |EncodedHeaders(r.headers)|, a, r.dataOffset) && r.dataOffset <= size
  {
    AlignmentIsPower(a);
    hide ReadHeaders, AlignmentOk, PowerOfTwo, AllOk, FreshNames, Holds, EncodedHeaders;
    var hs := r.headers;
    HeadersExtend(b, offset, size, p.tensorCount, offset, []);
    assert [] + hs == hs;
    if |hs| == p.tensorCount {
      ReadHeadersIff(b, offset, size, p.tensorCount, offset, [], hs, offset + |EncodedHeaders(hs)|);
      var t := ReadHeaders(b, offset, size, p.tensorCount, offset, []);
      if t.Got? {
        assert [] + t.value == t.value;
        ReadHeadersIff(b, offset, size, p.tensorCount, offset, [], t.value, t.next);
      }
    }
    if 1 <= a <= 65536 && PowerOfTwo(a) {
      var end := offset + |EncodedHeaders(hs)|;
      RoundUpIsRoundedUp(end, a);
      hide AndNot;
      if RoundedUp(end, a, r.dataOffset) {
        RoundedUpIsLeast(end, a, RoundUp(end, a), r.dataOffset);
      }
    }
  }

  /** A file is accepted with a result if and only if it begins with the encoding of some well-formed
      container that the result describes. */
  lemma {:induction false} ScanIff(b: seq<u8>, size: nat, r: Scanned)
    requires r.Accepted?
    ensures Scan(b, size) == r <==> exists es :: Describes(r, b, size, es)
  {
    if Scan(b, size) == r {
      var es := ScanFinds(b, size, r);
    }
    if exists es :: Describes(r, b, size, es) {
      var es :| Describes(r, b, size, es);
      ScanAccepts(b, size, r, es);
    }
  }

  lemma {:induction false} ScanFinds(b: seq<u8>, size: nat, r: Scanned) returns (es: seq<Entry>)
    requires r.Accepted? && Scan(b, size) == r
    ensures Describes(r, b, size, es)
  {
    hide ReadPreamble, ReadEntries, ScanTensors, AllEntriesOk, FreshKeys, AllOk, FreshNames, EncodedEntries,
      EncodedHeaders, PowerOfTwo, Holds, RoundedUp, AlignmentOf, EncodedPreamble;
    var p := ReadPreamble(b, size).value;
    PreambleEnds(b, size);
    ReadPreambleIff(b, size, p);
    HoldsInside(b, size, 0, EncodedPreamble(p));
    var t := ReadEntries(b, 24, size, p.metadataCount, METADATA_LIMIT, []);
    EntriesExtend(b, 24, size, p.metadataCount, METADATA_LIMIT, []);
    es := t.value;
    assert [] + es == es;
    ReadEntriesIff(b, 24, size, p.metadataCount, METADATA_LIMIT, [], es, t.next);
    HoldsInside(b, size, 24, EncodedEntries(es));
    ScanTensorsIff(b, size, p, t.next, AlignmentOf(es), r);
    HoldsBoth(b, size, 24, EncodedEntries(es), EncodedHeaders(r.headers));
    HoldsBoth(b, size, 0, EncodedPreamble(p), EncodedEntries(es) + EncodedHeaders(r.headers));
  }

  lemma PreambleEnds(b: seq<u8>, size: nat)
    ensures ReadPreamble(b, size).Got? ==> ReadPreamble(b, size).next == 24
  {}

  lemma {:induction false} ScanAccepts(b: seq<u8>, size: nat, r: Scanned, es: seq<Entry>)
    requires Describes(r, b, size, es)
    ensures Scan(b, size) == r
  {
    hide ReadPreamble, ReadEntries, ScanTensors, AllEntriesOk, FreshKeys, AllOk, FreshNames, EncodedEntries,
      EncodedHeaders, PowerOfTwo, Holds, RoundedUp, AlignmentOf, EncodedPreamble;
    var p := r.preamble;
    HoldsBoth(b, size, 0, EncodedPreamble(p), EncodedEntries(es) + EncodedHeaders(r.headers));
    HoldsBoth(b, size, 24, EncodedEntries(es), EncodedHeaders(r.headers));
    HoldsInside(b, size, 24, EncodedEntries(es));
    ReadPreambleIff(b, size, p);
    assert [] + es == es;
    ReadEntriesIff(b, 24, size, p.metadataCount, METADATA_LIMIT, [], es, 24 + |EncodedEntries(es)|);
    ScanTensorsIff(b, size, p, 24 + |EncodedEntries(es)|, AlignmentOf(es), r);
  }

  /** What an acceptance says about the bytes walked: behind the preamble lies the encoding of as many
      metadata entries as announced, with distinct keys, then the encoding of the headers returned,
      with distinct names, all inside the file. */
  lemma {:induction false} TensorInfoReencodes(b: seq<u8>, size: nat, r: Scanned)
    returns (es: seq<Entry>, start: nat)
    requires r.Accepted? && Scan(b, size) == r
    ensures |es| == r.preamble.metadataCount && r.alignment == AlignmentOf(es)
    ensures start == 24 + |EncodedEntries(es)| && Holds(b, size, 24, EncodedEntries(es))
    ensures forall i, j :: 0 <= i < j < |es| ==> es[i].key != es[j].key
    ensures Holds(b, size, start, EncodedHeaders(r.headers))
    ensures forall i, j :: 0 <= i < j < |r.headers| ==> r.headers[i].name != r.headers[j].name
    ensures r.alignment >= 1 && RoundedUp(start + |EncodedHeaders(r.headers)|, r.alignment, r.dataOffset)
  {
    hide Scan, EncodedEntries, EncodedHeaders, EncodedPreamble, Holds, RoundedUp, AllEntriesOk, FreshKeys, AllOk,
      FreshNames, PowerOfTwo, AlignmentOf;
    es := ScanFinds(b, size, r);
    start := 24 + |EncodedEntries(es)|;
    HoldsBoth(b, size, 0, EncodedPreamble(r.preamble), EncodedEntries(es) + EncodedHeaders(r.headers));
    HoldsBoth(b, size, 24, EncodedEntries(es), EncodedHeaders(r.headers));
    FreshKeysAreDistinct(es);
    FreshNamesAreDistinct(r.headers);
  }
}
