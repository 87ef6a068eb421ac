/** The loops of skip_value and scan_container (scripts/inventory-gguf.py), proved against
    GgufMetadata, GgufTensors and GgufContainer. */
module GgufScanner {
  import opened CheckedArithmetic
  import opened GgufBytes
  import opened GgufTensors
  import opened GgufMetadata
  import opened GgufContainer

  /** skip_value returns only the offset. */
  function Skipped<T>(r: Read<T>): Read<()> {
    match r case Fail(e) => Fail(e) case Got(_, next) => Got((), next)
  }

  method SkipTexts(b: seq<u8>, start: nat, size: nat, count: nat, limit: nat) returns (r: Read<()>)
    ensures r == Skipped(ReadTexts(b, start, size, count, limit, []))
  {
    hide ReadString;
    var offset: nat, i := start, 0;
    ghost var texts: seq<seq<u8>> := [];
    while i < count
      invariant 0 <= i <= count
      invariant ReadTexts(b, offset, size, count - i, limit, texts) == ReadTexts(b, start, size, count, limit, [])
    {
      var text := ReadString(b, offset, size, MAX_STRING_BYTES);
      if text.Fail? { return Fail(text.error); }
      offset := text.next;
      if offset > limit { return Fail(MetadataBytesRejected); }
      texts := texts + [text.value];
      i := i + 1;
    }
    return Got((), offset);
  }

  method SkipArray(b: seq<u8>, start: nat, size: nat, limit: nat) returns (r: Read<()>)
    ensures r == Skipped(ReadArray(b, start, size, limit))
  {
    hide ReadU32, ReadU64, ReadExact, ReadTexts;
    var element := ReadU32(b, start, size);
    if element.Fail? { return Fail(element.error); }
    var count := ReadU64(b, element.next, size);
    if count.Fail? { return Fail(count.error); }
    var offset := count.next;
    if count.value > MAX_ARRAY_ELEMENTS { return Fail(ArrayCountRejected(count.value)); }
    if ScalarSize(element.value) != 0 {
      var data := ReadExact(b, offset, count.value * ScalarSize(element.value), size);
      if data.Fail? { return Fail(data.error); }
      return if data.next > limit then Fail(MetadataBytesRejected) else Got((), data.next);
    }
    if element.value != 8 { return Fail(ArrayTypeRejected); }
    if count.value > (if limit > offset then limit - offset else 0) / 8 { return Fail(MetadataBytesRejected); }
    r := SkipTexts(b, offset, size, count.value, limit);
  }

  method SkipValue(b: seq<u8>, start: nat, size: nat, valueType: nat, limit: nat) returns (r: Read<()>)
    ensures r == Skipped(ReadValue(b, start, size, valueType, limit))
  {
    hide ReadExact, ReadString, ReadArray;
    if ScalarSize(valueType) != 0 {
      var data := ReadExact(b, start, ScalarSize(valueType), size);
      if data.Fail? { return Fail(data.error); }
      return if data.next > limit then Fail(MetadataBytesRejected) else Got((), data.next);
    }
    if valueType == 8 {
      var text := ReadString(b, start, size, MAX_STRING_BYTES);
      if text.Fail? { return Fail(text.error); }
      return if text.next > limit then Fail(MetadataBytesRejected) else Got((), text.next);
    }
    if valueType != 9 { return Fail(MetadataTypeRejected); }
    r := SkipArray(b, start, size, limit);
  }

  ghost predicate SameKeys(keys: set<seq<u8>>, es: seq<Entry>) { forall k :: k in keys <==> HasKey(es, k) }

  lemma KeyAdded(keys: set<seq<u8>>, es: seq<Entry>, e: Entry)
    requires SameKeys(keys, es)
    ensures SameKeys(keys + {e.key}, es + [e])
  {
    var gs := es + [e];
    forall k ensures k in keys + {e.key} <==> HasKey(gs, k) {
      assert gs[|es|] == e;
      if HasKey(es, k) {
        var i :| 0 <= i < |es| && es[i].key == k;
        assert gs[i].key == k;
      }
    }
  }

  /** One pass of the metadata loop. */
  method ScanEntry(b: seq<u8>, start: nat, size: nat, keys: set<seq<u8>>, alignment: nat, ghost es: seq<Entry>)
    returns (r: Read<(seq<u8>, nat)>, ghost e: Read<Entry>)
    requires SameKeys(keys, es) && alignment == AlignmentOf(es)
    ensures e == ReadEntry(b, start, size, METADATA_LIMIT, es)
    ensures e.Fail? ==> r == Fail(e.error)
    ensures e.Got? ==> r == Got((e.value.key, AlignmentOf(es + [e.value])), e.next)
  {
    hide ReadString, ReadU32, ReadValue, HasKey;
    e := ReadEntry(b, start, size, METADATA_LIMIT, es);
    var key := ReadString(b, start, size, MAX_KEY_BYTES);
    if key.Fail? { return Fail(key.error), e; }
    if key.value in keys { return Fail(MetadataKeyDuplicate), e; }
    var valueType := ReadU32(b, key.next, size);
    if valueType.Fail? { return Fail(valueType.error), e; }
    var next, after := valueType.next, alignment;
    if key.value == ALIGNMENT_KEY {
      if valueType.value != 4 { return Fail(AlignmentTypeRejected), e; }
      var n := ReadU32(b, next, size);
      if n.Fail? { return Fail(n.error), e; }
      after, next := n.value, n.next;
      U32RoundTrips(b, valueType.next, size);
    } else {
      var skipped := SkipValue(b, next, size, valueType.value, METADATA_LIMIT);
      if skipped.Fail? { return Fail(skipped.error), e; }
      next := skipped.next;
    }
    if next > METADATA_LIMIT { return Fail(MetadataBytesRejected), e; }
    assert (es + [e.value])[..|es|] == es;
    return Got((key.value, after), next), e;
  }

  lemma U32RoundTrips(b: seq<u8>, offset: nat, size: nat)
    ensures var r := ReadU32(b, offset, size); r.Got? ==> LittleEndian(Bytes(r.value, 4)) == r.value
  {
    var r := ReadU32(b, offset, size);
    if r.Got? {
      var data := ReadExact(b, offset, 4, size).value;
      BytesOfLittleEndian(data);
    }
  }

  /** The metadata loop. */
  method ScanMetadata(b: seq<u8>, start: nat, size: nat, count: nat) returns (r: Read<nat>)
    ensures match ReadEntries(b, start, size, count, METADATA_LIMIT, [])
      case Fail(e) => r == Fail(e)
      case Got(es, next) => r == Got(AlignmentOf(es), next)
  {
    hide ReadEntry, AlignmentOf;
    var offset: nat, alignment: nat, keys, i := start, 32, {}, 0;
    ghost var es: seq<Entry> := [];
    assert AlignmentOf([]) == 32 by { DefaultAlignment(); }
    while i < count
      invariant 0 <= i <= count && SameKeys(keys, es) && alignment == AlignmentOf(es)
      invariant ReadEntries(b, offset, size, count - i, METADATA_LIMIT, es)
             == ReadEntries(b, start, size, count, METADATA_LIMIT, [])
    {
      var entry;
      ghost var e;
      entry, e := ScanEntry(b, offset, size, keys, alignment, es);
      if entry.Fail? { return Fail(entry.error); }
      KeyAdded(keys, es, e.value);
      keys := keys + {entry.value.0};
      alignment, offset := entry.value.1, entry.next;
      es := es + [e.value];
      i := i + 1;
    }
    return Got(alignment, offset);
  }

  lemma DefaultAlignment()
    ensures AlignmentOf([]) == 32
  {}

  ghost predicate SameNames(names: set<seq<u8>>, hs: seq<Header>) { forall n :: n in names <==> Named(hs, n) }

  lemma NameAdded(names: set<seq<u8>>, hs: seq<Header>, h: Header)
    requires SameNames(names, hs)
    ensures SameNames(names + {h.name}, hs + [h])
  {
    var gs := hs + [h];
    forall n ensures n in names + {h.name} <==> Named(gs, n) {
      assert gs[|hs|] == h;
      if Named(hs, n) {
        var i :| 0 <= i < |hs| && hs[i].name == n;
        assert gs[i].name == n;
      }
    }
  }

  method ScanDims(b: seq<u8>, start: nat, size: nat, rank: nat) returns (r: Read<seq<nat>>)
    ensures r == ReadDims(b, start, size, rank, [])
  {
    hide ReadU64;
    var shape: seq<nat>, offset: nat, i := [], start, 0;
    while i < rank
      invariant 0 <= i <= rank
      invariant ReadDims(b, offset, size, rank - i, shape) == ReadDims(b, start, size, rank, [])
    {
      var dimension := ReadU64(b, offset, size);
      if dimension.Fail? { return Fail(dimension.error); }
      shape, offset := shape + [dimension.value], dimension.next;
      i := i + 1;
    }
    return Got(shape, offset);
  }

  /** One pass of the tensor loop. */
  method ScanHeader(b: seq<u8>, start: nat, size: nat, names: set<seq<u8>>, ghost hs: seq<Header>)
    returns (r: Read<Header>)
    requires SameNames(names, hs)
    ensures r == ReadHeader(b, start, size, hs)
  {
    hide ReadString, ReadU32, ReadU64, ReadDims, Named;
    var name := ReadString(b, start, size, MAX_NAME_BYTES);
    if name.Fail? { return Fail(name.error); }
    if name.value in names { return Fail(TensorNameDuplicate); }
    var rank := ReadU32(b, name.next, size);
    if rank.Fail? { return Fail(rank.error); }
    if rank.value < 1 || rank.value > MAX_RANK { return Fail(TensorRankRejected); }
    var shape := ScanDims(b, rank.next, size, rank.value);
    if shape.Fail? { return Fail(shape.error); }
    if 0 in shape.value { return Fail(TensorShapeRejected); }
    var typeId := ReadU32(b, shape.next, size);
    if typeId.Fail? { return Fail(typeId.error); }
    if typeId.value >= 40 { return Fail(TensorTypeRejected); }
    var relative := ReadU64(b, typeId.next, size);
    if relative.Fail? { return Fail(relative.error); }
    return Got(Header(name.value, shape.value, typeId.value, relative.value), relative.next);
  }

  /** The tensor loop. */
  method ScanHeaders(b: seq<u8>, start: nat, size: nat, count: nat) returns (r: Read<seq<Header>>)
    ensures r == ReadHeaders(b, start, size, count, start, [])
  {
    hide ReadHeader;
    var headers: seq<Header>, names, offset: nat, i := [], {}, start, 0;
    while i < count
      invariant 0 <= i <= count && SameNames(names, headers)
      invariant ReadHeaders(b, offset, size, count - i, start, headers) == ReadHeaders(b, start, size, count, start, [])
    {
      var header := ScanHeader(b, offset, size, names, headers);
      if header.Fail? { return Fail(header.error); }
      NameAdded(names, headers, header.value);
      names := names + {header.value.name};
      offset := header.next;
      if offset - start > MAX_TENSOR_INFO_BYTES { return Fail(TensorInfoBytesRejected); }
      headers := headers + [header.value];
      i := i + 1;
    }
    return Got(headers, offset);
  }

  method ScanContainer(b: seq<u8>, size: nat) returns (r: Scanned)
    ensures r == Scan(b, size)
  {
    hide ReadPreamble, ReadEntries, ReadHeaders, AlignmentOf, AlignmentOk;
    var preamble := ReadPreamble(b, size);
    if preamble.Fail? { return Rejected(preamble.error); }
    var p := preamble.value;
    var metadata := ScanMetadata(b, preamble.next, size, p.metadataCount);
    if metadata.Fail? { return Rejected(metadata.error); }
    var alignment := metadata.value;
    if !AlignmentOk(alignment) { return Rejected(AlignmentRejected); }
    if p.tensorCount > MAX_TENSOR_INFO_BYTES / 32 { return Rejected(TensorInfoBytesRejected); }
    var headers := ScanHeaders(b, metadata.next, size, p.tensorCount);
    if headers.Fail? { return Rejected(headers.error); }
    AlignmentPositive(alignment);
    var dataOffset := RoundUp(headers.next, alignment);
    if dataOffset > size { return Rejected(TensorInfoTruncated); }
    return Accepted(p, alignment, dataOffset, headers.value);
  }

  lemma AlignmentPositive(a: nat)
    requires AlignmentOk(a)
    ensures a >= 1
  {}
}
