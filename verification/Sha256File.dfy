/** The size-bounded file hash of src/benchmark/sha256.cpp and the digest text the session asks for
    as cleanup evidence. */
module Sha256File {
  import opened CheckedArithmetic
  import opened Sha256Spec
  import opened Sha256Streaming
  import SessionModel

  datatype Outcome = Hashed(digest: string) | SizeExceeded | ReadFailed | TooLong

  /** What the reads deliver: everything before the first empty one. */
  function Delivered(chunks: seq<seq<Byte>>): seq<Byte> {
    if chunks == [] || chunks[0] == [] then [] else chunks[0] + Delivered(chunks[1..])
  }

  /** sha256_regular_file_bounded once the file is open; `bad` is the stream's state at the end. */
  method HashBounded(chunks: seq<seq<Byte>>, bad: bool, maximum: u64) returns (r: Outcome)
    ensures var m := Delivered(chunks);
      r == if |m| > maximum then SizeExceeded
           else if bad then ReadFailed
           else if |m| > U64_MAX / 8 then TooLong
           else Hashed(Digest(m))
  {
    hide Digest, Sha256Stream.Aligned;
    var stream := new Sha256Stream();
    var i := 0;
    while i < |chunks| && chunks[i] != []
      invariant 0 <= i <= |chunks| && stream.Valid() && fresh(stream) && fresh(stream.state) && fresh(stream.block)
      invariant |stream.Message()| <= maximum
      invariant Delivered(chunks) == stream.Message() + Delivered(chunks[i..])
    {
      var count := |chunks[i]|;
      if count > maximum || stream.totalBytes > maximum - count { return SizeExceeded; }
      assert stream.Message() + Delivered(chunks[i..]) == stream.Message() + chunks[i] + Delivered(chunks[i + 1..]);
      var ok := stream.Update(chunks[i]);
      if !ok { return SizeExceeded; }
      i := i + 1;
    }
    assert stream.Message() + Delivered(chunks[i..]) == stream.Message();
    if bad { return ReadFailed; }
    var digest := stream.Finish();
    r := match digest case Some(d) => Hashed(d) case None => TooLong;
  }

  lemma {:induction false} HexIsLowerCase(ws: seq<Word>, i: nat)
    requires i < 8 * |ws|
    ensures SessionModel.HexDigit(Hex(ws)[i])
  {
    var n := |ws| - 1;
    if i < 8 * n {
      HexIsLowerCase(ws[..n], i);
    }
  }

  /** Every digest passes the test applied to the cleanup evidence's hashes. */
  lemma {:induction false} DigestIsEvidence(m: seq<Byte>)
    ensures SessionModel.IsSha256(Digest(m))
  {
    forall i | 0 <= i < 64 ensures SessionModel.HexDigit(Digest(m)[i]) {
      HexIsLowerCase(Hash(m), i);
    }
  }

  lemma NibblesDetermine(w: Word, v: Word)
    requires Nibble(w, 0) == Nibble(v, 0) && Nibble(w, 1) == Nibble(v, 1) && Nibble(w, 2) == Nibble(v, 2)
    requires Nibble(w, 3) == Nibble(v, 3) && Nibble(w, 4) == Nibble(v, 4) && Nibble(w, 5) == Nibble(v, 5)
    requires Nibble(w, 6) == Nibble(v, 6) && Nibble(w, 7) == Nibble(v, 7)
    ensures w == v
  {}

  lemma DigitDetermines(a: bv4, b: bv4)
    requires DIGITS[a as nat] == DIGITS[b as nat]
    ensures a == b
  {
    assert a as nat == b as nat;
  }

  lemma HexWordDetermines(w: Word, v: Word)
    requires HexWord(w) == HexWord(v)
    ensures w == v
  {
    forall i | 0 <= i < 8 ensures Nibble(w, i) == Nibble(v, i) {
      hide Nibble;
      assert DIGITS[Nibble(w, i) as nat] == HexWord(w)[i] == HexWord(v)[i] == DIGITS[Nibble(v, i) as nat];
      DigitDetermines(Nibble(w, i), Nibble(v, i));
    }
    NibblesDetermine(w, v);
  }

  lemma {:induction false} HexDetermines(a: seq<Word>, b: seq<Word>)
    requires Hex(a) == Hex(b)
    ensures a == b
  {
    assert |a| == |b|;
    if a != [] {
      var n := |a| - 1;
      assert Hex(a)[..8 * n] == Hex(a[..n]) && Hex(b)[..8 * n] == Hex(b[..n]);
      assert Hex(a)[8 * n..] == HexWord(a[n]) && Hex(b)[8 * n..] == HexWord(b[n]);
      HexDetermines(a[..n], b[..n]);
      HexWordDetermines(a[n], b[n]);
      assert a == a[..n] + [a[n]] && b == b[..n] + [b[n]];
    }
  }

  /** Comparing digest texts is comparing hash values. */
  lemma DigestsAgree(m: seq<Byte>, n: seq<Byte>)
    ensures Digest(m) == Digest(n) <==> Hash(m) == Hash(n)
  {
    hide Hash;
    if Digest(m) == Digest(n) {
      HexDetermines(Hash(m), Hash(n));
    }
  }
}
