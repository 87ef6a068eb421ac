/** checked_tensor_length and validate_spans (scripts/inventory-gguf.py). */
module GgufSpans {
  import opened CheckedArithmetic
  import opened TextOrder

  // ----- tensor length -----

  datatype Length = Length(bytes: nat) | ElementCountOverflow | PartialBlock | ByteCountOverflow | DivisionByZero

  function Product(shape: seq<nat>): nat {
    if shape == [] then 1 else Product(shape[..|shape| - 1]) * shape[|shape| - 1]
  }

  predicate Positive(shape: seq<nat>) { forall i :: 0 <= i < |shape| ==> shape[i] > 0 }

  predicate FirstZero(shape: seq<nat>, z: nat) { z < |shape| && shape[z] == 0 && Positive(shape[..z]) }

  /** What an element count that fits comes to. */
  function LengthOf(n: nat, blockElements: nat, blockBytes: nat): Length {
    if blockElements == 0 then DivisionByZero
    else if n % blockElements != 0 then PartialBlock
    else if blockBytes == 0 then DivisionByZero
    else if n / blockElements * blockBytes > U64_MAX then ByteCountOverflow
    else Length(n / blockElements * blockBytes)
  }

  /** Without a zero the exact product decides. With one, what comes before it decides whether the
      count overflows, and the loop divides by zero when a further dimension follows. */
  method CheckedTensorLength(shape: seq<nat>, blockElements: nat, blockBytes: nat) returns (r: Length)
    ensures Positive(shape) || exists z: nat :: FirstZero(shape, z)
    ensures Positive(shape) ==>
      r == if Product(shape) > U64_MAX then ElementCountOverflow else LengthOf(Product(shape), blockElements, blockBytes)
    ensures forall z: nat :: FirstZero(shape, z) ==>
      r == if Product(shape[..z]) > U64_MAX then ElementCountOverflow
           else if z < |shape| - 1 then DivisionByZero
           else LengthOf(0, blockElements, blockBytes)
  {
    ghost var z := ZeroOrEnd(shape);
    var elements, i := 1, 0;
    while i < |shape|
      invariant 0 <= i <= |shape| && i <= z + 1 && 0 <= elements <= U64_MAX && elements == Product(shape[..i])
      invariant elements == 0 <==> i == z + 1
      invariant i == z + 1 ==> Product(shape[..z]) <= U64_MAX
    {
      if elements == 0 { return DivisionByZero; }
      assert shape[..i + 1][..i] == shape[..i];
      QuotientTestIsExact(elements, shape[i], U64_MAX);
      if shape[i] > U64_MAX / elements {
        assert shape[..z][..i + 1] == shape[..i + 1];
        ProductGrows(shape[..z], i + 1);
        assert z == |shape| ==> shape[..z] == shape;
        return ElementCountOverflow;
      }
      if shape[i] > 0 { PositiveProduct(elements, shape[i]); }
      elements := elements * shape[i];
      i := i + 1;
    }
    assert shape[..i] == shape;
    if blockElements == 0 { return DivisionByZero; }
    if elements % blockElements != 0 { return PartialBlock; }
    var blocks := elements / blockElements;
    if blockBytes == 0 { return DivisionByZero; }
    QuotientTestIsExact(blockBytes, blocks, U64_MAX);
    if blocks > U64_MAX / blockBytes { return ByteCountOverflow; }
    return Length(blocks * blockBytes);
  }

  /** The position of the first zero, or the end. */
  lemma {:induction false} ZeroOrEnd(shape: seq<nat>) returns (z: nat)
    ensures z <= |shape| && Positive(shape[..z]) && (z < |shape| ==> FirstZero(shape, z))
    ensures z == |shape| <==> Positive(shape)
    ensures forall y: nat :: FirstZero(shape, y) ==> y == z
  {
    z := 0;
    while z < |shape| && shape[z] != 0
      invariant z <= |shape| && forall i :: 0 <= i < z ==> shape[i] > 0
    {
      z := z + 1;
    }
  }

  lemma PositiveProduct(a: nat, b: nat)
    requires a > 0 && b > 0
    ensures a * b > 0
  {}

  /** More positive factors never make the product smaller. */
  lemma {:induction false} ProductGrows(shape: seq<nat>, k: nat)
    requires Positive(shape) && k <= |shape|
    ensures Product(shape[..k]) <= Product(shape)
  {
    if k == |shape| {
      assert shape[..k] == shape;
    } else {
      var init := shape[..|shape| - 1];
      ProductGrows(init, k);
      assert init[..k] == shape[..k];
      var last := shape[|shape| - 1];
      assert Product(init) * last >= Product(init) by { MulMonotone(Product(init), 1, last); }
    }
  }

  // ----- spans -----

  datatype Span = Span(start: int, end: int, name: string)

  datatype Verdict =
    | Valid | BoundsRejected(name: string) | AlignmentRejected(name: string) | Overlap(first: string, second: string)
    | NoAlignment

  predicate InBounds(s: Span, fileSize: nat) { 0 <= s.start < s.end <= U64_MAX && s.end <= fileSize }

  /** Python's order on tuples. */
  predicate Before(a: Span, b: Span) {
    a.start < b.start || (a.start == b.start && (a.end < b.end || (a.end == b.end && Less(a.name, b.name))))
  }

  /** sorted(); the order is total, so every sort gives this sequence. */
  function Placed(s: Span, spans: seq<Span>): (r: seq<Span>)
    ensures |r| == |spans| + 1
  {
    if spans == [] || Before(s, spans[0]) then [s] + spans else [spans[0]] + Placed(s, spans[1..])
  }

  function Ordered(spans: seq<Span>): (r: seq<Span>)
    ensures |r| == |spans|
  {
    if spans == [] then [] else Placed(spans[0], Ordered(spans[1..]))
  }

  lemma {:induction false} PlacedAdds(s: Span, spans: seq<Span>)
    ensures multiset(Placed(s, spans)) == multiset(spans) + multiset{s}
  {
    hide Before;
    if spans != [] && !Before(s, spans[0]) {
      PlacedAdds(s, spans[1..]);
      assert spans == [spans[0]] + spans[1..];
    }
  }

  lemma {:induction false} OrderedIsPermutation(spans: seq<Span>)
    ensures multiset(Ordered(spans)) == multiset(spans)
  {
    if spans != [] {
      hide Placed;
      OrderedIsPermutation(spans[1..]);
      PlacedAdds(spans[0], Ordered(spans[1..]));
      assert spans == [spans[0]] + spans[1..];
    }
  }

  predicate Apart(a: Span, b: Span) { a.end <= b.start || b.end <= a.start }

  predicate AllApart(s: Span, spans: seq<Span>) { forall i :: 0 <= i < |spans| ==> Apart(s, spans[i]) }

  /** No two of them share a byte. */
  predicate Disjoint(spans: seq<Span>) {
    forall i, j :: 0 <= i < j < |spans| ==> Apart(spans[i], spans[j])
  }

  predicate Nonempty(spans: seq<Span>) { forall i :: 0 <= i < |spans| ==> spans[i].start < spans[i].end }

  predicate StartsAscend(spans: seq<Span>) { forall i, j :: 0 <= i < j < |spans| ==> spans[i].start <= spans[j].start }

  /** Each span ends before its successor starts. */
  predicate Adjacent(spans: seq<Span>) { forall i :: 0 < i < |spans| ==> spans[i - 1].end <= spans[i].start }

  lemma DisjointStep(s: Span, spans: seq<Span>)
    ensures Disjoint([s] + spans) <==> AllApart(s, spans) && Disjoint(spans)
  {
    var all := [s] + spans;
    assert forall i :: 0 <= i < |spans| ==> all[i + 1] == spans[i];
    if AllApart(s, spans) && Disjoint(spans) {
      forall i, j | 0 <= i < j < |all| ensures Apart(all[i], all[j]) {
        if i > 0 { assert all[i] == spans[i - 1] && all[j] == spans[j - 1]; }
      }
    }
    if Disjoint(all) {
      assert all[0] == s;
    }
  }

  /** Where a span is placed changes neither what it must be apart from nor what is not empty. */
  lemma {:induction false} PlacedKeeps(s: Span, spans: seq<Span>, t: Span)
    ensures AllApart(t, Placed(s, spans)) <==> Apart(t, s) && AllApart(t, spans)
    ensures Disjoint(Placed(s, spans)) <==> AllApart(s, spans) && Disjoint(spans)
    ensures Nonempty(Placed(s, spans)) <==> s.start < s.end && Nonempty(spans)
  {
    hide Disjoint, AllApart, Nonempty, Less;
    if spans == [] || Before(s, spans[0]) {
      DisjointStep(s, spans);
      Heads(t, s, spans);
    } else {
      var h, rest := spans[0], spans[1..];
      assert spans == [h] + rest;
      PlacedKeeps(s, rest, t);
      PlacedKeeps(s, rest, h);
      DisjointStep(h, Placed(s, rest));
      DisjointStep(h, rest);
      Heads(t, h, Placed(s, rest));
      Heads(t, h, rest);
      Heads(s, h, rest);
    }
  }

  lemma Heads(t: Span, s: Span, spans: seq<Span>)
    ensures AllApart(t, [s] + spans) <==> Apart(t, s) && AllApart(t, spans)
    ensures Nonempty([s] + spans) <==> s.start < s.end && Nonempty(spans)
  {
    var all := [s] + spans;
    assert all[0] == s && forall i :: 0 <= i < |spans| ==> all[i + 1] == spans[i];
    if Apart(t, s) && AllApart(t, spans) {
      forall i | 0 <= i < |all| ensures Apart(t, all[i]) {
        if i > 0 { assert all[i] == spans[i - 1]; }
      }
    }
  }

  lemma {:induction false} PlacedStarts(s: Span, spans: seq<Span>, low: int)
    requires low <= s.start && forall i :: 0 <= i < |spans| ==> low <= spans[i].start
    ensures forall i :: 0 <= i < |Placed(s, spans)| ==> low <= Placed(s, spans)[i].start
  {
    hide Less;
    if spans != [] && !Before(s, spans[0]) { PlacedStarts(s, spans[1..], low); }
  }

  lemma {:induction false} PlacedAscends(s: Span, spans: seq<Span>)
    requires StartsAscend(spans)
    ensures StartsAscend(Placed(s, spans))
  {
    hide Less;
    if spans != [] && !Before(s, spans[0]) {
      PlacedAscends(s, spans[1..]);
      PlacedStarts(s, spans[1..], spans[0].start);
    }
  }

  /** Sorting orders the starts and keeps disjointness, both ways. */
  lemma {:induction false} OrderedKeeps(spans: seq<Span>)
    ensures StartsAscend(Ordered(spans))
    ensures Disjoint(Ordered(spans)) <==> Disjoint(spans)
    ensures Nonempty(Ordered(spans)) <==> Nonempty(spans)
    ensures forall t :: AllApart(t, Ordered(spans)) <==> AllApart(t, spans)
  {
    if spans != [] {
      hide Disjoint, AllApart, Nonempty, Placed;
      var s, rest := spans[0], spans[1..];
      assert spans == [s] + rest;
      OrderedKeeps(rest);
      forall t ensures AllApart(t, Ordered(spans)) <==> AllApart(t, spans) {
        PlacedKeeps(s, Ordered(rest), t);
        Heads(t, s, rest);
      }
      PlacedKeeps(s, Ordered(rest), s);
      PlacedAscends(s, Ordered(rest));
      Heads(s, s, rest);
      DisjointStep(s, rest);
    }
  }

  /** Once the starts ascend, looking at neighbours is enough. */
  lemma {:induction false} NeighboursDecide(spans: seq<Span>)
    requires StartsAscend(spans) && Nonempty(spans)
    ensures Adjacent(spans) <==> Disjoint(spans)
  {
    if Adjacent(spans) {
      forall i, j | 0 <= i < j < |spans| ensures Apart(spans[i], spans[j]) {
        EndsBefore(spans, i, j);
      }
    }
    if Disjoint(spans) {
      forall i | 0 < i < |spans| ensures spans[i - 1].end <= spans[i].start {
        assert Apart(spans[i - 1], spans[i]);
      }
    }
  }

  lemma {:induction false} EndsBefore(spans: seq<Span>, i: nat, j: nat)
    requires Adjacent(spans) && Nonempty(spans) && i < j < |spans|
    ensures spans[i].end <= spans[j].start
    decreases j
  {
    if i < j - 1 { EndsBefore(spans, i, j - 1); }
  }

  predicate AllInBounds(spans: seq<Span>, fileSize: nat, alignment: nat) {
    forall i :: 0 <= i < |spans| ==>
      InBounds(spans[i], fileSize) && alignment > 0 && spans[i].start % alignment == 0
  }

  /** The first span that is refused, and why. */
  predicate FirstRefused(spans: seq<Span>, i: nat, fileSize: nat, alignment: nat, r: Verdict)
    requires i < |spans|
  {
    && AllInBounds(spans[..i], fileSize, alignment)
    && if !InBounds(spans[i], fileSize) then r == BoundsRejected(spans[i].name)
       else if alignment == 0 then r.NoAlignment?
       else r == AlignmentRejected(spans[i].name) && spans[i].start % alignment != 0
  }

  /** Neighbours in order of which the first reaches into the second. */
  predicate Overlapping(a: Span, b: Span, r: Verdict) { r == Overlap(a.name, b.name) && a.end > b.start }

  /** Accepted if and only if every span is non-empty, inside the file, aligned, and no two overlap. */
  method ValidateSpans(spans: seq<Span>, fileSize: nat, alignment: nat) returns (r: Verdict)
    ensures r.Valid? <==> AllInBounds(spans, fileSize, alignment) && Disjoint(spans)
    ensures r.Overlap? ==> exists k :: 0 < k < |spans| && Overlapping(Ordered(spans)[k - 1], Ordered(spans)[k], r)
    ensures r.Valid? || r.Overlap? || exists i :: 0 <= i < |spans| && FirstRefused(spans, i, fileSize, alignment, r)
  {
    hide Before, Disjoint;
    var i := 0;
    while i < |spans|
      invariant 0 <= i <= |spans| && AllInBounds(spans[..i], fileSize, alignment)
    {
      var s := spans[i];
      if s.start < 0 || s.end <= s.start || s.start > U64_MAX || s.end > U64_MAX || s.end > fileSize {
        r := BoundsRejected(s.name);
        assert FirstRefused(spans, i, fileSize, alignment, r);
        return;
      }
      if alignment == 0 {
        assert FirstRefused(spans, i, fileSize, alignment, NoAlignment);
        return NoAlignment;
      }
      if s.start % alignment != 0 {
        r := AlignmentRejected(s.name);
        assert FirstRefused(spans, i, fileSize, alignment, r);
        return;
      }
      i := i + 1;
    }
    assert spans[..i] == spans;
    OrderedKeeps(spans);
    var ordered := Ordered(spans);
    NeighboursDecide(ordered);
    var k := 1;
    while k < |ordered|
      invariant 1 <= k && (k <= |ordered| || ordered == [])
      invariant forall j :: 0 < j < k && j < |ordered| ==> ordered[j - 1].end <= ordered[j].start
    {
      if ordered[k - 1].end > ordered[k].start {
        r := Overlap(ordered[k - 1].name, ordered[k].name);
        assert Overlapping(ordered[k - 1], ordered[k], r);
        return;
      }
      k := k + 1;
    }
    return Valid;
  }
}
