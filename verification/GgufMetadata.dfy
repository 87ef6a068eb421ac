/** The metadata region: skip_value and the key loop of scan_container (scripts/inventory-gguf.py).
    The reader here also says which value was skipped, so that the region can be re-encoded. */
module GgufMetadata {
  import opened CheckedArithmetic
  import opened GgufBytes
  import opened GgufTensors

  const MAX_ARRAY_ELEMENTS := 300_000
  const MAX_KEY_BYTES := 1024

  /** general.alignment */
  const ALIGNMENT_KEY: seq<u8> := [
    103, 101, 110, 101, 114, 97, 108, 46, 97, 108, 105, 103, 110, 109, 101, 110, 116]

  /** SCALAR_SIZES; zero for every other type. */
  function ScalarSize(t: nat): nat {
    if t == 0 || t == 1 || t == 7 then 1
    else if t == 2 || t == 3 then 2
    else if t == 4 || t == 5 || t == 6 then 4
    else if t == 10 || t == 11 || t == 12 then 8
    else 0
  }

  datatype Value =
    | Scalar(data: seq<u8>)
    | Text(text: seq<u8>)
    | ScalarArray(element: nat, count: nat, data: seq<u8>)
    | TextArray(texts: seq<seq<u8>>)

  datatype Entry = Entry(key: seq<u8>, valueType: nat, value: Value)

  function EncodedTexts(ts: seq<seq<u8>>): seq<u8> {
    if ts == [] then [] else EncodedString(ts[0]) + EncodedTexts(ts[1..])
  }

  function EncodedValue(v: Value): seq<u8> {
    match v
    case Scalar(data) => data
    case Text(text) => EncodedString(text)
    case ScalarArray(element, count, data) => Bytes(element, 4) + (Bytes(count, 8) + data)
    case TextArray(texts) => Bytes(8, 4) + (Bytes(|texts|, 8) + EncodedTexts(texts))
  }

  function EncodedEntry(e: Entry): seq<u8> {
    EncodedString(e.key) + (Bytes(e.valueType, 4) + EncodedValue(e.value))
  }

  function EncodedEntries(es: seq<Entry>): seq<u8> {
    if es == [] then [] else EncodedEntry(es[0]) + EncodedEntries(es[1..])
  }

  predicate TextOk(t: seq<u8>) { |t| <= MAX_STRING_BYTES && Utf8(t) }

  predicate AllTexts(ts: seq<seq<u8>>) { forall i :: 0 <= i < |ts| ==> TextOk(ts[i]) }

  predicate ArrayOk(v: Value) {
    match v
    case ScalarArray(element, count, data) =>
      ScalarSize(element) != 0 && count <= MAX_ARRAY_ELEMENTS && |data| == count * ScalarSize(element)
    case TextArray(texts) => |texts| <= MAX_ARRAY_ELEMENTS && AllTexts(texts)
    case _ => false
  }

  predicate ValueOk(t: nat, v: Value) {
    if ScalarSize(t) != 0 then v.Scalar? && |v.data| == ScalarSize(t)
    else if t == 8 then v.Text? && TextOk(v.text)
    else t == 9 && ArrayOk(v)
  }

  predicate EntryOk(e: Entry) {
    && |e.key| <= MAX_KEY_BYTES && Utf8(e.key) && ValueOk(e.valueType, e.value)
    && (e.key == ALIGNMENT_KEY ==> e.valueType == 4)
  }

  predicate HasKey(es: seq<Entry>, key: seq<u8>) { exists i :: 0 <= i < |es| && es[i].key == key }

  /** The alignment in force after these entries. */
  function AlignmentOf(es: seq<Entry>): nat {
    if es == [] then 32
    else
      var e := es[|es| - 1];
      if e.key == ALIGNMENT_KEY && e.value.Scalar? then LittleEndian(e.value.data) else AlignmentOf(es[..|es| - 1])
  }

  // ----- readers -----

  function Within<T>(r: Read<T>, limit: nat): Read<T> {
    if r.Got? && r.next > limit then Fail(MetadataBytesRejected) else r
  }

  function ReadTexts(b: seq<u8>, offset: nat, size: nat, n: nat, limit: nat, ts: seq<seq<u8>>): Read<seq<seq<u8>>>
    decreases n
  {
    if n == 0 then Got(ts, offset)
    else
      match Within(ReadString(b, offset, size, MAX_STRING_BYTES), limit)
      case Fail(e) => Fail(e)
      case Got(t, next) => ReadTexts(b, next, size, n - 1, limit, ts + [t])
  }

  function ReadElements(b: seq<u8>, offset: nat, size: nat, element: nat, count: nat, limit: nat): Read<Value> {
    if ScalarSize(element) != 0 then
      match Within(ReadExact(b, offset, count * ScalarSize(element), size), limit)
      case Fail(e) => Fail(e)
      case Got(data, next) => Got(ScalarArray(element, count, data), next)
    else if element != 8 then Fail(ArrayTypeRejected)
    else if count > (if limit > offset then limit - offset else 0) / 8 then Fail(MetadataBytesRejected)
    else
      match ReadTexts(b, offset, size, count, limit, [])
      case Fail(e) => Fail(e)
      case Got(texts, next) => Got(TextArray(texts), next)
  }

  function ReadArray(b: seq<u8>, offset: nat, size: nat, limit: nat): Read<Value> {
    match ReadU32(b, offset, size)
    case Fail(e) => Fail(e)
    case Got(element, next) =>
      match ReadU64(b, next, size)
      case Fail(e) => Fail(e)
      case Got(count, after) =>
        if count > MAX_ARRAY_ELEMENTS then Fail(ArrayCountRejected(count))
        else ReadElements(b, after, size, element, count, limit)
  }

  /** skip_value */
  function ReadValue(b: seq<u8>, offset: nat, size: nat, t: nat, limit: nat): Read<Value> {
    if ScalarSize(t) != 0 then
      match Within(ReadExact(b, offset, ScalarSize(t), size), limit)
      case Fail(e) => Fail(e)
      case Got(data, next) => Got(Scalar(data), next)
    else if t == 8 then
      match Within(ReadString(b, offset, size, MAX_STRING_BYTES), limit)
      case Fail(e) => Fail(e)
      case Got(text, next) => Got(Text(text), next)
    else if t != 9 then Fail(MetadataTypeRejected)
    else ReadArray(b, offset, size, limit)
  }

  function ReadAlignment(b: seq<u8>, offset: nat, size: nat, t: nat): Read<Value> {
    if t != 4 then Fail(AlignmentTypeRejected)
    else
      match ReadU32(b, offset, size)
      case Fail(e) => Fail(e)
      case Got(n, next) => Got(Scalar(Bytes(n, 4)), next)
  }

  function ReadEntry(b: seq<u8>, offset: nat, size: nat, limit: nat, es: seq<Entry>): Read<Entry> {
    match ReadString(b, offset, size, MAX_KEY_BYTES)
    case Fail(e) => Fail(e)
    case Got(key, next) =>
      if HasKey(es, key) then Fail(MetadataKeyDuplicate)
      else
        match ReadU32(b, next, size)
        case Fail(e) => Fail(e)
        case Got(t, after) =>
          match Within(if key == ALIGNMENT_KEY then ReadAlignment(b, after, size, t)
                       else ReadValue(b, after, size, t, limit), limit)
          case Fail(e) => Fail(e)
          case Got(value, end) => Got(Entry(key, t, value), end)
  }

  function ReadEntries(b: seq<u8>, offset: nat, size: nat, n: nat, limit: nat, es: seq<Entry>): Read<seq<Entry>>
    decreases n
  {
    if n == 0 then Got(es, offset)
    else
      match ReadEntry(b, offset, size, limit, es)
      case Fail(e) => Fail(e)
      case Got(e, next) => ReadEntries(b, next, size, n - 1, limit, es + [e])
  }

  // ----- a reader succeeds exactly on the encoding of its value -----

  lemma StringIff(b: seq<u8>, offset: nat, size: nat, maximum: nat, s: seq<u8>, next: nat)
    requires offset <= |b| && maximum <= MAX_STRING_BYTES
    ensures ReadString(b, offset, size, maximum) == Got(s, next)
       <==> && |s| <= maximum && Utf8(s) && next == offset + |EncodedString(s)|
            && Holds(b, size, offset, EncodedString(s))
  {
    PowersAre();
    ReadStringIff(b, offset, size, maximum, s, next);
  }

  lemma {:induction false} TextsTakeRoom(ts: seq<seq<u8>>)
    ensures |EncodedTexts(ts)| >= 8 * |ts|
  {
    if ts != [] { TextsTakeRoom(ts[1..]); }
  }

  lemma {:induction false} TextsExtend(b: seq<u8>, offset: nat, size: nat, n: nat, limit: nat, ts: seq<seq<u8>>)
    ensures var r := ReadTexts(b, offset, size, n, limit, ts);
      r.Got? ==> |r.value| == |ts| + n && ts <= r.value
    decreases n
  {
    hide ReadString;
    if n > 0 {
      var r := ReadString(b, offset, size, MAX_STRING_BYTES);
      if r.Got? { TextsExtend(b, r.next, size, n - 1, limit, ts + [r.value]); }
    }
  }

  lemma {:induction false} ReadTextsIff(
      b: seq<u8>, offset: nat, size: nat, n: nat, limit: nat, ts: seq<seq<u8>>, more: seq<seq<u8>>, next: nat)
    requires offset <= |b| && offset <= size && |more| == n && next <= limit
    ensures ReadTexts(b, offset, size, n, limit, ts) == Got(ts + more, next)
       <==> && AllTexts(more) && next == offset + |EncodedTexts(more)|
            && Holds(b, size, offset, EncodedTexts(more))
    decreases n
  {
    hide ReadString, TextOk, EncodedString, Holds;
    if n == 0 {
      assert ts + more == ts;
      HoldsNothing(b, size, offset);
    } else {
      var t, rest := more[0], more[1..];
      var e := EncodedString(t);
      assert ts + more == ts + [t] + rest;
      HoldsBoth(b, size, offset, e, EncodedTexts(rest));
      HoldsInside(b, size, offset, e);
      TextIff(b, offset, size, t, offset + |e|);
      assert AllTexts(more) <==> TextOk(t) && AllTexts(rest) by { assert forall i :: 0 < i < |more| ==> more[i] == rest[i - 1]; }
      var r := ReadString(b, offset, size, MAX_STRING_BYTES);
      if r.Got? {
        TextIff(b, offset, size, r.value, r.next);
        HoldsInside(b, size, offset, EncodedString(r.value));
        TextsExtend(b, r.next, size, n - 1, limit, ts + [r.value]);
        assert (ts + more)[|ts|] == t;
        if r.value == t {
          ReadTextsIff(b, r.next, size, n - 1, limit, ts + [t], rest, next);
        }
      }
    }
  }

  lemma TextIff(b: seq<u8>, offset: nat, size: nat, t: seq<u8>, next: nat)
    requires offset <= |b|
    ensures ReadString(b, offset, size, MAX_STRING_BYTES) == Got(t, next)
       <==> TextOk(t) && next == offset + |EncodedString(t)| && Holds(b, size, offset, EncodedString(t))
  {
    StringIff(b, offset, size, MAX_STRING_BYTES, t, next);
  }

  function EncodedElements(v: Value): seq<u8>
    requires v.ScalarArray? || v.TextArray?
  {
    if v.ScalarArray? then v.data else EncodedTexts(v.texts)
  }

  function Element(v: Value): nat
    requires v.ScalarArray? || v.TextArray?
  {
    if v.ScalarArray? then v.element else 8
  }

  function Count(v: Value): nat
    requires v.ScalarArray? || v.TextArray?
  {
    if v.ScalarArray? then v.count else |v.texts|
  }

  lemma {:induction false} ReadElementsIff(
      b: seq<u8>, offset: nat, size: nat, element: nat, count: nat, limit: nat, v: Value, next: nat)
    requires offset <= |b| && offset <= size && count <= MAX_ARRAY_ELEMENTS && next <= limit
    ensures ReadElements(b, offset, size, element, count, limit) == Got(v, next)
       <==> && ArrayOk(v) && Element(v) == element && Count(v) == count
            && next == offset + |EncodedElements(v)| && Holds(b, size, offset, EncodedElements(v))
  {
    hide TextOk, EncodedTexts, ReadTexts;
    if ScalarSize(element) != 0 {
      if v.ScalarArray? && |v.data| == count * ScalarSize(element) {
        ReadExactIff(b, offset, size, v.data);
      }
      ReadExactLength(b, offset, count * ScalarSize(element), size);
    } else if element == 8 {
      TextsExtend(b, offset, size, count, limit, []);
      if v.TextArray? && |v.texts| == count {
        assert [] + v.texts == v.texts;
        ReadTextsIff(b, offset, size, count, limit, [], v.texts, next);
        TextsTakeRoom(v.texts);
      }
    }
  }

  lemma ArrayEncoding(v: Value)
    requires ArrayOk(v)
    ensures EncodedValue(v) == Bytes(Element(v), 4) + (Bytes(Count(v), 8) + EncodedElements(v))
    ensures Element(v) < Pow256(4) && Count(v) < Pow256(8)
  {
    PowersAre();
  }

  lemma {:induction false} ReadArrayIff(b: seq<u8>, offset: nat, size: nat, limit: nat, v: Value, next: nat)
    requires offset <= |b| && next <= limit
    ensures ReadArray(b, offset, size, limit) == Got(v, next)
       <==> && ArrayOk(v) && next == offset + |EncodedValue(v)| && Holds(b, size, offset, EncodedValue(v))
  {
    hide ReadU32, ReadU64, ReadElements, Pow256, Bytes, Holds, EncodedElements, AllTexts;
    if ArrayOk(v) {
      ArrayEncoding(v);
      hide EncodedValue;
      var e0, e1, e2 := Bytes(Element(v), 4), Bytes(Count(v), 8), EncodedElements(v);
      HoldsBoth(b, size, offset, e0, e1 + e2);
      HoldsBoth(b, size, offset + 4, e1, e2);
      HoldsInside(b, size, offset, e0);
      HoldsInside(b, size, offset + 4, e1);
      U32Iff(b, offset, size, Element(v), offset + 4);
      if offset + 4 <= |b| {
        U64Iff(b, offset + 4, size, Count(v), offset + 12);
      }
    }
    var r := ReadU32(b, offset, size);
    if r.Got? {
      U32Iff(b, offset, size, r.value, r.next);
      HoldsInside(b, size, offset, Bytes(r.value, 4));
      var q := ReadU64(b, r.next, size);
      if q.Got? && q.value <= MAX_ARRAY_ELEMENTS {
        U64Iff(b, r.next, size, q.value, q.next);
        HoldsInside(b, size, r.next, Bytes(q.value, 8));
        ReadElementsIff(b, q.next, size, r.value, q.value, limit, v, next);
      }
    }
  }

  lemma {:induction false} ReadValueIff(b: seq<u8>, offset: nat, size: nat, t: nat, limit: nat, v: Value, next: nat)
    requires offset <= |b| && next <= limit
    ensures ReadValue(b, offset, size, t, limit) == Got(v, next)
       <==> && ValueOk(t, v) && next == offset + |EncodedValue(v)| && Holds(b, size, offset, EncodedValue(v))
  {
    hide ReadArray, ArrayOk, TextOk, ReadString;
    if ScalarSize(t) != 0 {
      ReadExactLength(b, offset, ScalarSize(t), size);
      if v.Scalar? && |v.data| == ScalarSize(t) {
        ReadExactIff(b, offset, size, v.data);
      }
    } else if t == 8 {
      if v.Text? {
        TextIff(b, offset, size, v.text, next);
      }
    } else {
      ReadArrayIff(b, offset, size, limit, v, next);
    }
  }

  lemma {:induction false} ReadAlignmentIff(b: seq<u8>, offset: nat, size: nat, t: nat, v: Value, next: nat)
    requires offset <= |b|
    ensures ReadAlignment(b, offset, size, t) == Got(v, next)
       <==> t == 4 && ValueOk(t, v) && next == offset + |EncodedValue(v)| && Holds(b, size, offset, EncodedValue(v))
  {
    hide ReadU32, Bytes, Pow256;
    var r := ReadU32(b, offset, size);
    if r.Got? {
      U32Iff(b, offset, size, r.value, r.next);
    }
    if v.Scalar? && |v.data| == 4 {
      BytesOfLittleEndian(v.data);
      U32Iff(b, offset, size, LittleEndian(v.data), offset + 4);
    }
  }

  lemma {:induction false} ReadEntryIff(
      b: seq<u8>, offset: nat, size: nat, limit: nat, es: seq<Entry>, e: Entry, next: nat)
    requires offset <= |b|
    ensures ReadEntry(b, offset, size, limit, es) == Got(e, next)
       <==> && EntryOk(e) && !HasKey(es, e.key) && next == offset + |EncodedEntry(e)| <= limit
            && Holds(b, size, offset, EncodedEntry(e))
  {
    PowersAre();
    hide ReadString, ReadU32, ReadAlignment, ReadValue, Pow256, Bytes, EncodedString, EncodedValue, HasKey, Utf8, Holds;
    var e0, e1, e2 := EncodedString(e.key), Bytes(e.valueType, 4), EncodedValue(e.value);
    HoldsBoth(b, size, offset, e0, e1 + e2);
    HoldsBoth(b, size, offset + |e0|, e1, e2);
    HoldsInside(b, size, offset, e0);
    HoldsInside(b, size, offset + |e0|, e1);
    StringIff(b, offset, size, MAX_KEY_BYTES, e.key, offset + |e0|);
    assert ValueOk(e.valueType, e.value) ==> e.valueType < Pow256(4);
    if offset + |e0| <= |b| {
      U32Iff(b, offset + |e0|, size, e.valueType, offset + |e0| + 4);
    }
    var key := ReadString(b, offset, size, MAX_KEY_BYTES);
    if key.Got? {
      StringIff(b, offset, size, MAX_KEY_BYTES, key.value, key.next);
      HoldsInside(b, size, offset, EncodedString(key.value));
      var t := ReadU32(b, key.next, size);
      if t.Got? {
        U32Iff(b, key.next, size, t.value, t.next);
        HoldsInside(b, size, key.next, Bytes(t.value, 4));
        EntryValueIff(b, t.next, size, limit, key.value, t.value, e.value, next);
      }
    }
  }

  lemma EntryValueIff(
      b: seq<u8>, offset: nat, size: nat, limit: nat, key: seq<u8>, t: nat, v: Value, next: nat)
    requires offset <= |b|
    ensures Within(if key == ALIGNMENT_KEY then ReadAlignment(b, offset, size, t)
                   else ReadValue(b, offset, size, t, limit), limit) == Got(v, next)
       <==> && ValueOk(t, v) && (key == ALIGNMENT_KEY ==> t == 4)
            && next == offset + |EncodedValue(v)| <= limit && Holds(b, size, offset, EncodedValue(v))
  {
    hide ReadAlignment, ReadValue, ValueOk, EncodedValue, Holds;
    if key == ALIGNMENT_KEY {
      ReadAlignmentIff(b, offset, size, t, v, next);
    } else if next <= limit {
      ReadValueIff(b, offset, size, t, limit, v, next);
    }
  }

  predicate AllEntriesOk(es: seq<Entry>) { forall i :: 0 <= i < |es| ==> EntryOk(es[i]) }

  /** Every key is new when it appears. */
  predicate FreshKeys(es: seq<Entry>, more: seq<Entry>) {
    forall j :: 0 <= j < |more| ==> !HasKey(es + more[..j], more[j].key)
  }

  lemma FreshKeysStep(es: seq<Entry>, more: seq<Entry>)
    requires more != []
    ensures FreshKeys(es, more) <==> !HasKey(es, more[0].key) && FreshKeys(es + [more[0]], more[1..])
  {
    hide HasKey;
    var rest := more[1..];
    assert es + more[..0] == es;
    assert forall j :: 0 <= j < |rest| ==> rest[j] == more[j + 1] && es + more[..j + 1] == es + [more[0]] + rest[..j];
    if !HasKey(es, more[0].key) && FreshKeys(es + [more[0]], rest) {
      forall j | 0 <= j < |more| ensures !HasKey(es + more[..j], more[j].key) {
        if j > 0 { assert rest[j - 1] == more[j]; }
      }
    }
  }

  lemma FreshKeysAreDistinct(es: seq<Entry>)
    requires FreshKeys([], es)
    ensures forall i, j :: 0 <= i < j < |es| ==> es[i].key != es[j].key
  {
    forall i, j | 0 <= i < j < |es| ensures es[i].key != es[j].key {
      assert ([] + es[..j])[i] == es[i];
    }
  }

  lemma {:induction false} EntriesExtend(b: seq<u8>, offset: nat, size: nat, n: nat, limit: nat, es: seq<Entry>)
    ensures var r := ReadEntries(b, offset, size, n, limit, es);
      r.Got? ==> |r.value| == |es| + n && es <= r.value
    decreases n
  {
    hide ReadEntry;
    if n > 0 {
      var r := ReadEntry(b, offset, size, limit, es);
      if r.Got? { EntriesExtend(b, r.next, size, n - 1, limit, es + [r.value]); }
    }
  }

  /** The region is accepted with these entries if and only if it is their encoding, they are well
      formed, their keys are new and the region ends within the limit. */
  lemma {:induction false} ReadEntriesIff(
      b: seq<u8>, offset: nat, size: nat, n: nat, limit: nat, es: seq<Entry>, more: seq<Entry>, next: nat)
    requires offset <= |b| && offset <= size && offset <= limit && |more| == n
    ensures ReadEntries(b, offset, size, n, limit, es) == Got(es + more, next)
       <==> && AllEntriesOk(more) && FreshKeys(es, more)
            && next == offset + |EncodedEntries(more)| <= limit && Holds(b, size, offset, EncodedEntries(more))
    decreases n
  {
    hide ReadEntry, EntryOk, EncodedEntry, HasKey, Holds, FreshKeys;
    if n == 0 {
      assert es + more == es;
      NoKeys(es);
      HoldsNothing(b, size, offset);
    } else {
      var e, rest := more[0], more[1..];
      var d := EncodedEntry(e);
      assert es + more == es + [e] + rest;
      FreshKeysStep(es, more);
      HoldsBoth(b, size, offset, d, EncodedEntries(rest));
      HoldsInside(b, size, offset, d);
      ReadEntryIff(b, offset, size, limit, es, e, offset + |d|);
      assert AllEntriesOk(more) <==> EntryOk(e) && AllEntriesOk(rest) by {
        assert forall i :: 0 < i < |more| ==> more[i] == rest[i - 1];
      }
      var r := ReadEntry(b, offset, size, limit, es);
      if r.Got? {
        ReadEntryIff(b, offset, size, limit, es, r.value, r.next);
        HoldsInside(b, size, offset, EncodedEntry(r.value));
        EntriesExtend(b, r.next, size, n - 1, limit, es + [r.value]);
        assert (es + more)[|es|] == e;
        if r.value == e {
          ReadEntriesIff(b, r.next, size, n - 1, limit, es + [e], rest, next);
        }
      }
    }
  }

  lemma NoKeys(es: seq<Entry>)
    ensures FreshKeys(es, [])
  {}
}
