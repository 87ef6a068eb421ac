/** process_block of src/benchmark/sha256.cpp, which compresses one block in place, proved against
    Sha256Spec. */
module Sha256 {
  import opened CheckedArithmetic
  import opened Sha256Spec

  /** rotate_right */
  function RotateRight(value: Word, bits: Word): Word
    requires 0 < bits < 32
  {
    (value >> bits) | (value << (32 - bits))
  }

  lemma RotationsAgree(x: Word)
    ensures BigSigma0(x) == Xor(RotateRight(x, 2), RotateRight(x, 13), RotateRight(x, 22))
    ensures BigSigma1(x) == Xor(RotateRight(x, 6), RotateRight(x, 11), RotateRight(x, 25))
    ensures Sigma0(x) == Xor(RotateRight(x, 7), RotateRight(x, 18), x >> 3)
    ensures Sigma1(x) == Xor(RotateRight(x, 17), RotateRight(x, 19), x >> 10)
  {
    assert x.RotateRight(2) == RotateRight(x, 2) && x.RotateRight(13) == RotateRight(x, 13);
    assert x.RotateRight(22) == RotateRight(x, 22) && x.RotateRight(6) == RotateRight(x, 6);
    assert x.RotateRight(11) == RotateRight(x, 11) && x.RotateRight(25) == RotateRight(x, 25);
    assert x.RotateRight(7) == RotateRight(x, 7) && x.RotateRight(18) == RotateRight(x, 18);
    assert x.RotateRight(17) == RotateRight(x, 17) && x.RotateRight(19) == RotateRight(x, 19);
  }

  /** The shifted bytes joined by "or". */
  function Joined(b0: Byte, b1: Byte, b2: Byte, b3: Byte): Word {
    (b0 as Word << 24) | (b1 as Word << 16) | (b2 as Word << 8) | (b3 as Word)
  }

  lemma JoinedIsSum(b0: Byte, b1: Byte, b2: Byte, b3: Byte)
    ensures Joined(b0, b1, b2, b3)
         == b0 as Word * 0x1000000 + b1 as Word * 0x10000 + b2 as Word * 0x100 + b3 as Word
  {}

  /** The first so many words are those of the standard's schedule. */
  ghost predicate Scheduled(words: seq<Word>, block: seq<Byte>, n: nat)
    requires |block| == BLOCK && |words| == 64
  {
    forall t :: 0 <= t < n && t < 64 ==> words[t] == W(block, t)
  }

  /** The expansion loops fill the schedule of the standard. */
  method ExpandWords(block: seq<Byte>) returns (words: array<Word>)
    requires |block| == BLOCK
    ensures words.Length == 64 && fresh(words) && Scheduled(words[..], block, 64)
  {
    words := new Word[64];
    LoadWords(block, words);
    ExtendWords(block, words);
  }

  method LoadWords(block: seq<Byte>, words: array<Word>)
    requires |block| == BLOCK && words.Length == 64
    modifies words
    ensures Scheduled(words[..], block, 16)
  {
    for i := 0 to 16
      invariant Scheduled(words[..], block, i)
    {
      JoinedIsSum(block[4 * i], block[4 * i + 1], block[4 * i + 2], block[4 * i + 3]);
      words[i] := Joined(block[4 * i], block[4 * i + 1], block[4 * i + 2], block[4 * i + 3]);
    }
  }

  method ExtendWords(ghost block: seq<Byte>, words: array<Word>)
    requires |block| == BLOCK && words.Length == 64 && Scheduled(words[..], block, 16)
    modifies words
    ensures Scheduled(words[..], block, 64)
  {
    for i := 16 to 64
      invariant Scheduled(words[..], block, i)
    {
      ghost var before := words[..];
      var w := NextWord(words[i - 2], words[i - 7], words[i - 15], words[i - 16]);
      NextScheduled(before, block, i);
      words[i] := w;
      assert words[..] == before[i := w];
    }
  }

  lemma NextScheduled(words: seq<Word>, block: seq<Byte>, i: nat)
    requires |block| == BLOCK && |words| == 64 && 16 <= i < 64 && Scheduled(words, block, i)
    ensures Scheduled(words[i := Extend(words[i - 2], words[i - 7], words[i - 15], words[i - 16])], block, i + 1)
  {
    hide Extend;
  }

  /** The body of the second expansion loop, which adds in another order than the standard. */
  method NextWord(w2: Word, w7: Word, w15: Word, w16: Word) returns (w: Word)
    ensures w == Extend(w2, w7, w15, w16)
  {
    RotationsAgree(w15);
    RotationsAgree(w2);
    var s0 := Xor(RotateRight(w15, 7), RotateRight(w15, 18), w15 >> 3);
    var s1 := Xor(RotateRight(w2, 17), RotateRight(w2, 19), w2 >> 10);
    w := Sum4(w16, s0, w7, s1);
    SumsAgree(w16, s0, w7, s1);
  }

  lemma SumsAgree(w16: Word, s0: Word, w7: Word, s1: Word)
    ensures Sum4(w16, s0, w7, s1) == Sum4(s1, w7, s0, w16)
  {}

  /** The body of the round loop. */
  method NextRound(v: Working, k: Word, w: Word) returns (r: Working)
    ensures r == Round(v, k, w)
  {
    var Working(a, b, c, d, e, f, g, h) := v;
    RotationsAgree(e);
    RotationsAgree(a);
    var s1 := Xor(RotateRight(e, 6), RotateRight(e, 11), RotateRight(e, 25));
    var choose := Ch(e, f, g);
    var t1 := Sum5(h, s1, choose, k, w);
    var s0 := Xor(RotateRight(a, 2), RotateRight(a, 13), RotateRight(a, 22));
    var majority := Maj(a, b, c);
    var t2 := Sum2(s0, majority);
    h := g; g := f; f := e; e := Sum2(d, t1); d := c; c := b; b := a; a := Sum2(t1, t2);
    r := Working(a, b, c, d, e, f, g, h);
  }

  method ProcessBlock(block: seq<Byte>, state: array<Word>)
    requires |block| == BLOCK && state.Length == 8
    modifies state
    ensures state[..] == Compress(old(state[..]), block)
  {
    var words := ExpandWords(block);
    var v := Working(state[0], state[1], state[2], state[3], state[4], state[5], state[6], state[7]);
    v := AllRounds(v, words, block);
    AddTo(state, v);
  }

  method AllRounds(v: Working, words: array<Word>, ghost block: seq<Byte>) returns (r: Working)
    requires |block| == BLOCK && words.Length == 64 && Scheduled(words[..], block, 64)
    ensures r == Rounds(v, block, 64)
  {
    r := v;
    for i := 0 to 64
      invariant r == Rounds(v, block, i)
    {
      r := NextRound(r, K(i), words[i]);
    }
  }

  method AddTo(state: array<Word>, v: Working)
    requires state.Length == 8
    modifies state
    ensures state[..] == Sum(old(state[..]), v)
  {
    var a, b, c, d := Sum2(state[0], v.a), Sum2(state[1], v.b), Sum2(state[2], v.c), Sum2(state[3], v.d);
    var e, f, g, h := Sum2(state[4], v.e), Sum2(state[5], v.f), Sum2(state[6], v.g), Sum2(state[7], v.h);
    Store(state, a, b, c, d, e, f, g, h);
  }

  method Store(state: array<Word>, a: Word, b: Word, c: Word, d: Word, e: Word, f: Word, g: Word, h: Word)
    requires state.Length == 8
    modifies state
    ensures state[..] == [a, b, c, d, e, f, g, h]
  {
    state[0], state[1], state[2], state[3], state[4], state[5], state[6], state[7] := a, b, c, d, e, f, g, h;
  }
}
