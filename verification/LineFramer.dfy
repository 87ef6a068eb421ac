/** How drain_protocol (src/runtime/native_worker.cpp) cuts the worker's byte stream into lines. */
module LineFramer {

  const PENDING_LIMIT := 1024

  /** Position of the first newline, or the length when there is none. */
  function FirstNewline(s: string): (n: nat)
    ensures n <= |s| && '\n' !in s[..n] && (n < |s| ==> s[n] == '\n')
  {
    if s == "" || s[0] == '\n' then 0 else 1 + FirstNewline(s[1..])
  }

  /** The complete lines of a stream and what follows the last newline. */
  function Lines(s: string): seq<string>
    decreases |s|
  {
    var n := FirstNewline(s);
    if n == |s| then [] else [s[..n]] + Lines(s[n + 1..])
  }

  function Rest(s: string): (r: string)
    ensures |r| <= |s|
    decreases |s|
  {
    var n := FirstNewline(s);
    if n == |s| then s else Rest(s[n + 1..])
  }

  /** The inverse: lines with their newlines, then the rest. */
  function Join(lines: seq<string>, rest: string): string {
    if lines == [] then rest else lines[0] + "\n" + Join(lines[1..], rest)
  }

  ghost predicate Unbroken(lines: seq<string>, rest: string) {
    && (forall i :: 0 <= i < |lines| ==> '\n' !in lines[i])
    && '\n' !in rest
  }

  /** The first line of a stream that has one, and how the split goes on behind it. */
  lemma FirstLineSplits(s: string, n: nat)
    requires n == FirstNewline(s) < |s|
    ensures Lines(s) == [s[..n]] + Lines(s[n + 1..]) && Rest(s) == Rest(s[n + 1..])
  {
    hide *;
    FirstOfLines(s, n);
    RestBehindFirst(s, n);
  }

  lemma FirstOfLines(s: string, n: nat)
    requires n == FirstNewline(s) < |s|
    ensures Lines(s) == [s[..n]] + Lines(s[n + 1..])
  {
    hide FirstNewline, Rest;
  }

  lemma RestBehindFirst(s: string, n: nat)
    requires n == FirstNewline(s) < |s|
    ensures Rest(s) == Rest(s[n + 1..])
  {
    hide FirstNewline, Lines;
  }

  lemma CutAtNewline(s: string, n: nat)
    requires n < |s| && s[n] == '\n'
    ensures s == s[..n] + "\n" + s[n + 1..]
  {}

  lemma JoinFirst(line: string, lines: seq<string>, rest: string)
    requires '\n' !in line && Unbroken(lines, rest)
    ensures Join([line] + lines, rest) == line + "\n" + Join(lines, rest) && Unbroken([line] + lines, rest)
  {
    assert ([line] + lines)[1..] == lines;
  }

  lemma NoLine(s: string)
    requires FirstNewline(s) == |s|
    ensures Lines(s) == [] && Rest(s) == s && '\n' !in s
  {
    assert s[..|s|] == s;
  }

  /** Lines and pending bytes reassemble the stream. */
  lemma {:induction false} Reassembles(s: string)
    ensures Join(Lines(s), Rest(s)) == s && Unbroken(Lines(s), Rest(s))
    decreases |s|
  {
    hide Lines, Rest;
    var n := FirstNewline(s);
    if n < |s| {
      hide FirstNewline, Join, Unbroken;
      Reassembles(s[n + 1..]);
      FirstLineSplits(s, n);
      CutAtNewline(s, n);
      JoinFirst(s[..n], Lines(s[n + 1..]), Rest(s[n + 1..]));
    } else {
      NoLine(s);
    }
  }

  lemma {:induction false} FirstNewlineIs(s: string, n: nat)
    requires n <= |s| && '\n' !in s[..n] && (n < |s| ==> s[n] == '\n')
    ensures FirstNewline(s) == n
  {}

  /** And no other lines do. */
  lemma {:induction false} SplitIsUnique(lines: seq<string>, rest: string)
    requires Unbroken(lines, rest)
    ensures Lines(Join(lines, rest)) == lines && Rest(Join(lines, rest)) == rest
    decreases |lines|
  {
    var s := Join(lines, rest);
    if lines == [] {
      assert s[..|s|] == s;
      FirstNewlineIs(s, |s|);
    } else {
      var n := |lines[0]|;
      assert s[..n] == lines[0] && s[n] == '\n' && s[n + 1..] == Join(lines[1..], rest);
      FirstNewlineIs(s, n);
      SplitIsUnique(lines[1..], rest);
    }
  }

  /** Bytes behind it do not change the first line. */
  lemma FirstLineOfBoth(a: string, b: string, n: nat)
    requires n == FirstNewline(a) < |a|
    ensures Lines(a + b) == [a[..n]] + Lines(a[n + 1..] + b) && Rest(a + b) == Rest(a[n + 1..] + b)
  {
    assert (a + b)[..n] == a[..n] && (a + b)[n + 1..] == a[n + 1..] + b;
    FirstNewlineIs(a + b, n);
    FirstLineSplits(a + b, n);
  }

  lemma ThreeLists(a: seq<string>, b: seq<string>, c: seq<string>)
    ensures a + (b + c) == a + b + c
  {}

  /** Splitting may stop anywhere and go on from the rest. */
  lemma {:induction false} SplitResumes(a: string, b: string)
    ensures Lines(a + b) == Lines(a) + Lines(Rest(a) + b)
    ensures Rest(a + b) == Rest(Rest(a) + b)
    decreases |a|
  {
    var n := FirstNewline(a);
    hide Lines, Rest, FirstNewline;
    if n < |a| {
      FirstLineSplits(a, n);
      FirstLineOfBoth(a, b, n);
      SplitResumes(a[n + 1..], b);
      ThreeLists([a[..n]], Lines(a[n + 1..]), Lines(Rest(a) + b));
    } else {
      NoLine(a);
    }
  }

  // ----- the reader -----

  /** One read: append, give up on more than 1024 pending bytes, otherwise take the whole lines. */
  datatype Reader = Reader(pending: string, lines: seq<string>, trips: nat)

  function Read(r: Reader, chunk: string): Reader {
    var s := r.pending + chunk;
    if |s| > PENDING_LIMIT then Reader("", r.lines, r.trips + 1)
    else Reader(Rest(s), r.lines + Lines(s), r.trips)
  }

  function ReadAll(r: Reader, chunks: seq<string>): Reader {
    if chunks == [] then r else Read(ReadAll(r, chunks[..|chunks| - 1]), chunks[|chunks| - 1])
  }

  function Flatten(chunks: seq<string>): string {
    if chunks == [] then "" else Flatten(chunks[..|chunks| - 1]) + chunks[|chunks| - 1]
  }

  const FRESH := Reader("", [], 0)

  /** No read finds the bound exceeded. */
  ghost predicate Fits(chunks: seq<string>) { forall k :: 0 <= k < |chunks| ==> FitsAt(chunks, k) }

  predicate FitsAt(chunks: seq<string>, k: nat)
    requires k < |chunks|
  {
    |Rest(Flatten(chunks[..k]))| + |chunks[k]| <= PENDING_LIMIT
  }

  /** While the bound does not trip, the lines taken are the newline split of the stream, however
      it was cut into reads; and it does not trip exactly when every read fits what is pending. */
  lemma {:induction false} LinesAreTheSplit(chunks: seq<string>)
    ensures ReadAll(FRESH, chunks).trips == 0 <==> Fits(chunks)
    ensures Fits(chunks) ==>
      ReadAll(FRESH, chunks) == Reader(Rest(Flatten(chunks)), Lines(Flatten(chunks)), 0)
  {
    if chunks != [] {
      var init, last := chunks[..|chunks| - 1], chunks[|chunks| - 1];
      LinesAreTheSplit(init);
      FitsIsStepwise(chunks);
      SplitResumes(Flatten(init), last);
    }
  }

  lemma FitsIsStepwise(chunks: seq<string>)
    requires chunks != []
    ensures Fits(chunks) <==> Fits(chunks[..|chunks| - 1]) && FitsAt(chunks, |chunks| - 1)
  {
    var init := chunks[..|chunks| - 1];
    forall k | 0 <= k < |init| ensures FitsAt(init, k) == FitsAt(chunks, k) {
      assert chunks[..k] == init[..k];
    }
  }

  /** Every read returns at most 1024 bytes. */
  ghost predicate Cuts(chunks: seq<string>, s: string) {
    Flatten(chunks) == s && forall k :: 0 <= k < |chunks| ==> |chunks[k]| <= PENDING_LIMIT
  }

  function Least(a: nat, b: nat): nat { if a < b then a else b }

  /** Wherever a read may start, the longest read that can follow still fits. */
  ghost predicate AlwaysFits(s: string) {
    forall p :: 0 <= p <= |s| ==> |Rest(s[..p])| + Least(PENDING_LIMIT, |s| - p) <= PENDING_LIMIT
  }

  lemma {:induction false} FlattenPrefix(chunks: seq<string>, k: nat)
    requires k < |chunks|
    ensures |Flatten(chunks[..k])| + |chunks[k]| <= |Flatten(chunks)|
    ensures Flatten(chunks[..k]) == Flatten(chunks)[..|Flatten(chunks[..k])|]
    decreases |chunks|
  {
    var init := chunks[..|chunks| - 1];
    if k < |init| {
      FlattenPrefix(init, k);
      assert init[..k] == chunks[..k];
    }
  }

  /** A stream no cutting can trip. */
  lemma {:induction false} SafeStreamNeverTrips(s: string, chunks: seq<string>)
    requires AlwaysFits(s) && Cuts(chunks, s)
    ensures Fits(chunks)
  {
    forall k | 0 <= k < |chunks| ensures FitsAt(chunks, k) {
      FlattenPrefix(chunks, k);
      var p := |Flatten(chunks[..k])|;
      assert |Rest(s[..p])| + Least(PENDING_LIMIT, |s| - p) <= PENDING_LIMIT;
    }
  }

  /** One byte at a time. */
  function Bytes(s: string): seq<string> { seq(|s|, i requires 0 <= i < |s| => [s[i]]) }

  lemma {:induction false} BytesFlatten(s: string)
    ensures Flatten(Bytes(s)) == s
  {
    if s != "" {
      var t := s[..|s| - 1];
      BytesFlatten(t);
      assert Bytes(s)[..|s| - 1] == Bytes(t);
    }
  }

  lemma {:induction false} FlattenAppend(a: seq<string>, c: string)
    ensures Flatten(a + [c]) == Flatten(a) + c
  {
    assert (a + [c])[..|a|] == a;
  }

  /** Any other stream can be cut so that the bound trips, whatever its line lengths are. */
  lemma {:induction false} OtherStreamsCanTrip(s: string) returns (chunks: seq<string>)
    requires !AlwaysFits(s)
    ensures Cuts(chunks, s) && !Fits(chunks)
  {
    var p :| 0 <= p <= |s| && |Rest(s[..p])| + Least(PENDING_LIMIT, |s| - p) > PENDING_LIMIT;
    var n := Least(PENDING_LIMIT, |s| - p);
    var before, read, after := Bytes(s[..p]), s[p..p + n], Bytes(s[p + n..]);
    BytesFlatten(s[..p]);
    FlattenAppend(before, read);
    chunks := before + [read] + after;
    FlattenBytes(before + [read], s[p + n..]);
    assert s == s[..p] + read + s[p + n..];
    assert chunks[..p] == before && chunks[p] == read && !FitsAt(chunks, p);
  }

  lemma BytesOfLonger(s: string)
    requires s != ""
    ensures Bytes(s) == Bytes(s[..|s| - 1]) + [[s[|s| - 1]]]
  {}

  lemma {:induction false} FlattenBytes(a: seq<string>, s: string)
    ensures Flatten(a + Bytes(s)) == Flatten(a) + s
    decreases |s|
  {
    if s == "" {
      assert a + Bytes(s) == a;
    } else {
      var t, last := s[..|s| - 1], [s[|s| - 1]];
      BytesOfLonger(s);
      hide Bytes, Flatten;
      FlattenBytes(a, t);
      assert a + Bytes(s) == (a + Bytes(t)) + [last];
      FlattenAppend(a + Bytes(t), last);
      assert Flatten(a) + t + last == Flatten(a) + s;
    }
  }
}
