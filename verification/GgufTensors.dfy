/** The tensor-info region read by scan_container (scripts/inventory-gguf.py). */
module GgufTensors {
  import opened CheckedArithmetic
  import opened GgufBytes

  const MAX_RANK := 4
  const MAX_TENSOR_INFO_BYTES := 64 * 1024 * 1024
  const MAX_NAME_BYTES := 4096

  datatype Header = Header(name: seq<u8>, shape: seq<nat>, typeId: nat, relativeOffset: nat)

  // ----- encodings -----

  function EncodedDims(ds: seq<nat>): seq<u8> {
    if ds == [] then [] else Bytes(ds[0], 8) + EncodedDims(ds[1..])
  }

  function EncodedShape(shape: seq<nat>): seq<u8> { Bytes(|shape|, 4) + EncodedDims(shape) }

  function EncodedHeader(h: Header): seq<u8> {
    EncodedString(h.name) + (EncodedShape(h.shape) + (Bytes(h.typeId, 4) + Bytes(h.relativeOffset, 8)))
  }

  function EncodedHeaders(hs: seq<Header>): seq<u8> {
    if hs == [] then [] else EncodedHeader(hs[0]) + EncodedHeaders(hs[1..])
  }

  predicate ShapeOk(shape: seq<nat>) {
    1 <= |shape| <= MAX_RANK && forall i :: 0 <= i < |shape| ==> 0 < shape[i] < Pow256(8)
  }

  predicate HeaderOk(h: Header) {
    && |h.name| <= MAX_NAME_BYTES && Utf8(h.name) && ShapeOk(h.shape)
    && h.typeId < 40 && h.relativeOffset < Pow256(8)
  }

  predicate Named(hs: seq<Header>, name: seq<u8>) { exists i :: 0 <= i < |hs| && hs[i].name == name }

  // ----- readers -----

  function ReadDims(b: seq<u8>, offset: nat, size: nat, n: nat, shape: seq<nat>): Read<seq<nat>>
    decreases n
  {
    if n == 0 then Got(shape, offset)
    else
      match ReadU64(b, offset, size)
      case Fail(e) => Fail(e)
      case Got(d, next) => ReadDims(b, next, size, n - 1, shape + [d])
  }

  function ReadShape(b: seq<u8>, offset: nat, size: nat): Read<seq<nat>> {
    match ReadU32(b, offset, size)
    case Fail(e) => Fail(e)
    case Got(rank, next) =>
      if rank < 1 || rank > MAX_RANK then Fail(TensorRankRejected)
      else
        match ReadDims(b, next, size, rank, [])
        case Fail(e) => Fail(e)
        case Got(shape, after) => if 0 in shape then Fail(TensorShapeRejected) else Got(shape, after)
  }

  function ReadPlace(b: seq<u8>, offset: nat, size: nat): Read<(nat, nat)> {
    match ReadU32(b, offset, size)
    case Fail(e) => Fail(e)
    case Got(typeId, next) =>
      if typeId >= 40 then Fail(TensorTypeRejected)
      else
        match ReadU64(b, next, size)
        case Fail(e) => Fail(e)
        case Got(relative, after) => Got((typeId, relative), after)
  }

  function ReadHeader(b: seq<u8>, offset: nat, size: nat, hs: seq<Header>): Read<Header> {
    match ReadString(b, offset, size, MAX_NAME_BYTES)
    case Fail(e) => Fail(e)
    case Got(name, next) =>
      if Named(hs, name) then Fail(TensorNameDuplicate)
      else
        match ReadShape(b, next, size)
        case Fail(e) => Fail(e)
        case Got(shape, after) =>
          match ReadPlace(b, after, size)
          case Fail(e) => Fail(e)
          case Got(place, end) => Got(Header(name, shape, place.0, place.1), end)
  }

  /** `n` more headers after those in `hs`; `start` is where the region begins. */
  function ReadHeaders(b: seq<u8>, offset: nat, size: nat, n: nat, start: nat, hs: seq<Header>): Read<seq<Header>>
    decreases n
  {
    if n == 0 then Got(hs, offset)
    else
      match ReadHeader(b, offset, size, hs)
      case Fail(e) => Fail(e)
      case Got(h, next) =>
        if next - start > MAX_TENSOR_INFO_BYTES then Fail(TensorInfoBytesRejected)
        else ReadHeaders(b, next, size, n - 1, start, hs + [h])
  }

  // ----- a reader succeeds exactly on the encoding of its value -----

  predicate AllU64(ds: seq<nat>) { forall i :: 0 <= i < |ds| ==> ds[i] < Pow256(8) }

  lemma {:induction false} ReadDimsIff(
      b: seq<u8>, offset: nat, size: nat, n: nat, shape: seq<nat>, ds: seq<nat>, next: nat)
    requires offset <= |b| && offset <= size && |ds| == n
    ensures ReadDims(b, offset, size, n, shape) == Got(shape + ds, next)
       <==> AllU64(ds) && next == offset + |EncodedDims(ds)| && Holds(b, size, offset, EncodedDims(ds))
    decreases n
  {
    hide ReadU64, Pow256, Bytes;
    if n == 0 {
      assert shape + ds == shape;
    } else {
      var d, rest := ds[0], ds[1..];
      assert shape + ds == shape + [d] + rest;
      HoldsBoth(b, size, offset, Bytes(d, 8), EncodedDims(rest));
      var r := ReadU64(b, offset, size);
      U64Iff(b, offset, size, d, offset + 8);
      assert AllU64(ds) <==> d < Pow256(8) && AllU64(rest) by { assert forall i :: 0 < i < |ds| ==> ds[i] == rest[i - 1]; }
      if r.Got? {
        U64Iff(b, offset, size, r.value, r.next);
        ReadDimsIff(b, r.next, size, n - 1, shape + [d], rest, next);
        DimsExtend(b, r.next, size, n - 1, shape + [r.value]);
        assert (shape + ds)[|shape|] == d;
      }
    }
  }

  lemma U64Iff(b: seq<u8>, offset: nat, size: nat, n: nat, next: nat)
    requires offset <= |b|
    ensures ReadU64(b, offset, size) == Got(n, next)
       <==> n < Pow256(8) && next == offset + 8 && Holds(b, size, offset, Bytes(n, 8))
  {
    ReadIntegerIff(b, offset, 8, size, n, next);
  }

  lemma U32Iff(b: seq<u8>, offset: nat, size: nat, n: nat, next: nat)
    requires offset <= |b|
    ensures ReadU32(b, offset, size) == Got(n, next)
       <==> n < Pow256(4) && next == offset + 4 && Holds(b, size, offset, Bytes(n, 4))
  {
    ReadIntegerIff(b, offset, 4, size, n, next);
  }

  /** Dimensions are only ever added. */
  lemma {:induction false} DimsExtend(b: seq<u8>, offset: nat, size: nat, n: nat, shape: seq<nat>)
    ensures var r := ReadDims(b, offset, size, n, shape);
      r.Got? ==> |r.value| == |shape| + n && shape <= r.value
    decreases n
  {
    hide ReadU64;
    if n > 0 {
      var r := ReadU64(b, offset, size);
      if r.Got? { DimsExtend(b, r.next, size, n - 1, shape + [r.value]); }
    }
  }

  lemma PowersAre()
    ensures Pow256(4) == 0x1_0000_0000 && Pow256(8) == 0x1_0000_0000_0000_0000
  {
    assert Pow256(1) == 256 && Pow256(2) == 256 * Pow256(1) && Pow256(3) == 256 * Pow256(2);
    assert Pow256(5) == 256 * Pow256(4) && Pow256(6) == 256 * Pow256(5) && Pow256(7) == 256 * Pow256(6);
  }

  lemma {:induction false} ReadShapeIff(b: seq<u8>, offset: nat, size: nat, shape: seq<nat>, next: nat)
    requires offset <= |b|
    ensures ReadShape(b, offset, size) == Got(shape, next)
       <==> && ShapeOk(shape) && next == offset + |EncodedShape(shape)|
            && Holds(b, size, offset, EncodedShape(shape))
  {
    PowersAre();
    hide ReadU32, ReadDims, Pow256, Bytes, EncodedDims;
    HoldsBoth(b, size, offset, Bytes(|shape|, 4), EncodedDims(shape));
    U32Iff(b, offset, size, |shape|, offset + 4);
    assert ShapeOk(shape) <==> 1 <= |shape| <= MAX_RANK && AllU64(shape) && 0 !in shape;
    assert [] + shape == shape;
    var r := ReadU32(b, offset, size);
    if r.Got? {
      U32Iff(b, offset, size, r.value, r.next);
      DimsExtend(b, r.next, size, r.value, []);
      if |shape| == r.value {
        ReadDimsIff(b, r.next, size, r.value, [], shape, next);
      }
    }
  }

  lemma {:induction false} ReadPlaceIff(b: seq<u8>, offset: nat, size: nat, place: (nat, nat), next: nat)
    requires offset <= |b|
    ensures var e := Bytes(place.0, 4) + Bytes(place.1, 8);
      ReadPlace(b, offset, size) == Got(place, next)
      <==> place.0 < 40 && place.1 < Pow256(8) && next == offset + |e| && Holds(b, size, offset, e)
  {
    PowersAre();
    hide ReadU32, ReadU64, Pow256, Bytes;
    HoldsBoth(b, size, offset, Bytes(place.0, 4), Bytes(place.1, 8));
    U32Iff(b, offset, size, place.0, offset + 4);
    var r := ReadU32(b, offset, size);
    if r.Got? {
      U32Iff(b, offset, size, r.value, r.next);
      U64Iff(b, r.next, size, place.1, next);
      var q := ReadU64(b, r.next, size);
      if q.Got? { U64Iff(b, r.next, size, q.value, q.next); }
    }
  }

  lemma {:induction false} ReadHeaderIff(b: seq<u8>, offset: nat, size: nat, hs: seq<Header>, h: Header, next: nat)
    requires offset <= |b|
    ensures ReadHeader(b, offset, size, hs) == Got(h, next)
       <==> && HeaderOk(h) && !Named(hs, h.name) && next == offset + |EncodedHeader(h)|
            && Holds(b, size, offset, EncodedHeader(h))
  {
    PowersAre();
    hide ReadString, ReadShape, ReadPlace, Pow256, Bytes, EncodedString, EncodedShape, Named, ShapeOk, Utf8, Holds;
    var e0, e1, e2 := EncodedString(h.name), EncodedShape(h.shape), Bytes(h.typeId, 4) + Bytes(h.relativeOffset, 8);
    HoldsBoth(b, size, offset, e0, e1 + e2);
    HoldsBoth(b, size, offset + |e0|, e1, e2);
    ReadStringIff(b, offset, size, MAX_NAME_BYTES, h.name, offset + |e0|);
    HoldsInside(b, size, offset, e0);
    HoldsInside(b, size, offset + |e0|, e1);
    if offset + |e0| <= |b| {
      ReadShapeIff(b, offset + |e0|, size, h.shape, offset + |e0| + |e1|);
    }
    if offset + |e0| + |e1| <= |b| {
      ReadPlaceIff(b, offset + |e0| + |e1|, size, (h.typeId, h.relativeOffset), next);
    }
    var name := ReadString(b, offset, size, MAX_NAME_BYTES);
    if name.Got? {
      ReadStringIff(b, offset, size, MAX_NAME_BYTES, name.value, name.next);
      HoldsInside(b, size, offset, EncodedString(name.value));
      var shape := ReadShape(b, name.next, size);
      if shape.Got? {
        ReadShapeIff(b, name.next, size, shape.value, shape.next);
      }
    }
  }

  lemma HoldsInside(b: seq<u8>, size: nat, offset: nat, e: seq<u8>)
    ensures Holds(b, size, offset, e) ==> offset + |e| <= |b| && offset + |e| <= size
  {}

  predicate AllOk(hs: seq<Header>) { forall i :: 0 <= i < |hs| ==> HeaderOk(hs[i]) }

  /** Every name is new when it appears. */
  predicate FreshNames(hs: seq<Header>, more: seq<Header>) {
    forall j :: 0 <= j < |more| ==> !Named(hs + more[..j], more[j].name)
  }

  lemma FreshNamesStep(hs: seq<Header>, more: seq<Header>)
    requires more != []
    ensures FreshNames(hs, more) <==> !Named(hs, more[0].name) && FreshNames(hs + [more[0]], more[1..])
  {
    hide Named;
    var rest := more[1..];
    assert hs + more[..0] == hs;
    assert forall j :: 0 <= j < |rest| ==> rest[j] == more[j + 1] && hs + more[..j + 1] == hs + [more[0]] + rest[..j];
    if !Named(hs, more[0].name) && FreshNames(hs + [more[0]], rest) {
      forall j | 0 <= j < |more| ensures !Named(hs + more[..j], more[j].name) {
        if j > 0 { assert rest[j - 1] == more[j]; }
      }
    }
  }

  lemma {:induction false} HeadersExtend(b: seq<u8>, offset: nat, size: nat, n: nat, start: nat, hs: seq<Header>)
    ensures var r := ReadHeaders(b, offset, size, n, start, hs);
      r.Got? ==> |r.value| == |hs| + n && hs <= r.value
    decreases n
  {
    hide ReadHeader;
    if n > 0 {
      var r := ReadHeader(b, offset, size, hs);
      if r.Got? { HeadersExtend(b, r.next, size, n - 1, start, hs + [r.value]); }
    }
  }

  /** The region is accepted with these headers if and only if it is their encoding, they are well
      formed, their names are new and the region is not too long. */
  lemma {:induction false} ReadHeadersIff(
      b: seq<u8>, offset: nat, size: nat, n: nat, start: nat, hs: seq<Header>, more: seq<Header>, next: nat)
    requires start <= offset <= |b| && offset <= size && |more| == n
    ensures ReadHeaders(b, offset, size, n, start, hs) == Got(hs + more, next)
       <==> && AllOk(more) && FreshNames(hs, more)
            && next == offset + |EncodedHeaders(more)| && Holds(b, size, offset, EncodedHeaders(more))
            && (n > 0 ==> next - start <= MAX_TENSOR_INFO_BYTES)
    decreases n
  {
    hide ReadHeader, HeaderOk, EncodedHeader, Named, Holds, FreshNames;
    if n == 0 {
      assert hs + more == hs;
      NoNames(hs);
      HoldsNothing(b, size, offset);
    } else {
      var h, rest := more[0], more[1..];
      var e := EncodedHeader(h);
      assert hs + more == hs + [h] + rest;
      FreshNamesStep(hs, more);
      HoldsBoth(b, size, offset, e, EncodedHeaders(rest));
      HoldsInside(b, size, offset, e);
      ReadHeaderIff(b, offset, size, hs, h, offset + |e|);
      assert AllOk(more) <==> HeaderOk(h) && AllOk(rest) by { assert forall i :: 0 < i < |more| ==> more[i] == rest[i - 1]; }
      var r := ReadHeader(b, offset, size, hs);
      if r.Got? {
        ReadHeaderIff(b, offset, size, hs, r.value, r.next);
        HoldsInside(b, size, offset, EncodedHeader(r.value));
        HeadersExtend(b, r.next, size, n - 1, start, hs + [r.value]);
        assert (hs + more)[|hs|] == h;
        if r.value == h {
          ReadHeadersIff(b, r.next, size, n - 1, start, hs + [h], rest, next);
        }
      }
    }
  }

  /** New names one after the other are pairwise distinct. */
  lemma FreshNamesAreDistinct(hs: seq<Header>)
    requires FreshNames([], hs)
    ensures forall i, j :: 0 <= i < j < |hs| ==> hs[i].name != hs[j].name
  {
    forall i, j | 0 <= i < j < |hs| ensures hs[i].name != hs[j].name {
      assert ([] + hs[..j])[i] == hs[i];
    }
  }

  lemma NoNames(hs: seq<Header>)
    ensures FreshNames(hs, [])
  {}

  lemma HoldsNothing(b: seq<u8>, size: nat, offset: nat)
    requires offset <= |b| && offset <= size
    ensures Holds(b, size, offset, [])
  {}
}
