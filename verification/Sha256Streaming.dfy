/** sha256_update, sha256_finish and the size-bounded read loop (src/benchmark/sha256.cpp): for
    every way of cutting the input into pieces the digest is the one of the whole. */
module Sha256Streaming {
  import opened CheckedArithmetic
  import opened Sha256Spec
  import Sha256

  lemma {:induction false} AbsorbBlock(m: seq<Byte>, b: seq<Byte>)
    requires |m| % BLOCK == 0 && |b| == BLOCK
    ensures |m + b| % BLOCK == 0 && Absorb(m + b) == Compress(Absorb(m), b)
  {
    assert (m + b)[..|m + b| - BLOCK] == m && (m + b)[|m + b| - BLOCK..] == b;
  }

  // ----- padding, cut at the block boundary -----

  lemma ZerosNeeded(head: nat, tail: nat)
    requires head % BLOCK == 0 && tail < BLOCK
    ensures ZeroCount(head + tail) == if tail < 56 then 55 - tail else 119 - tail
  {}

  lemma ZerosJoin(a: nat, b: nat)
    ensures Zeros(a + b) == Zeros(a) + Zeros(b)
  {}

  /** The block sha256_finish compresses before the last when the length does not fit. */
  function Spill(tail: seq<Byte>): (r: seq<Byte>)
    requires 56 <= |tail| < BLOCK
    ensures |r| == BLOCK
  {
    tail + [0x80] + Zeros(63 - |tail|)
  }

  /** The block it compresses last. */
  function Closing(tail: seq<Byte>, bits: nat): (r: seq<Byte>)
    requires |tail| < BLOCK
    ensures |r| == BLOCK
  {
    (if |tail| < 56 then tail + [0x80] + Zeros(55 - |tail|) else Zeros(56)) + BigEndian(bits, 8)
  }

  lemma ShortPad(head: seq<Byte>, tail: seq<Byte>)
    requires |head| % BLOCK == 0 && |tail| < 56
    ensures Pad(head + tail) == head + Closing(tail, 8 * |head + tail|)
  {
    ZerosNeeded(|head|, |tail|);
    var z, n := Zeros(55 - |tail|), BigEndian(8 * |head + tail|, 8);
    assert head + tail + [0x80] + z + n == head + (tail + [0x80] + z + n);
  }

  lemma LongPad(head: seq<Byte>, tail: seq<Byte>)
    requires |head| % BLOCK == 0 && 56 <= |tail| < BLOCK
    ensures Pad(head + tail) == head + Spill(tail) + Closing(tail, 8 * |head + tail|)
  {
    ZerosNeeded(|head|, |tail|);
    ZerosJoin(63 - |tail|, 56);
    var y, z, n := Zeros(63 - |tail|), Zeros(56), BigEndian(8 * |head + tail|, 8);
    assert head + tail + [0x80] + (y + z) + n == head + (tail + [0x80] + y) + (z + n);
  }

  /** The state after the last blocks. */
  function Closed(h: seq<Word>, tail: seq<Byte>, bits: nat): (r: seq<Word>)
    requires |h| == 8 && |tail| < BLOCK
  {
    Compress(if |tail| < 56 then h else Compress(h, Spill(tail)), Closing(tail, bits))
  }

  lemma {:induction false} HashByBlocks(head: seq<Byte>, tail: seq<Byte>)
    requires |head| % BLOCK == 0 && |tail| < BLOCK
    ensures Hash(head + tail) == Closed(Absorb(head), tail, 8 * |head + tail|)
  {
    hide Compress, BigEndian, Zeros;
    if |tail| < 56 {
      ShortPad(head, tail);
      AbsorbBlock(head, Closing(tail, 8 * |head + tail|));
    } else {
      LongPad(head, tail);
      AbsorbBlock(head, Spill(tail));
      AbsorbBlock(head + Spill(tail), Closing(tail, 8 * |head + tail|));
    }
  }

  /** n >> (8 * i) */
  function ShiftedBytes(n: nat, i: nat): nat {
    if i == 0 then n else ShiftedBytes(n / 256, i - 1)
  }

  lemma {:induction false} BigEndianAt(n: nat, width: nat, i: nat)
    requires i < width
    ensures BigEndian(n, width)[width - 1 - i] == LowByte(ShiftedBytes(n, i))
  {
    if i > 0 {
      BigEndianAt(n / 256, width - 1, i - 1);
    }
  }

  class Sha256Stream {
    const state: array<Word>
    const block: array<Byte>
    var buffered: nat
    var totalBytes: u64
    /** The input so far: complete blocks, then the buffered tail. */
    ghost var head: seq<Byte>
    ghost var tail: seq<Byte>

    /** The state is the fold over the complete blocks, the buffer holds the tail. */
    ghost predicate Aligned()
      reads this, state, block
    {
      && state.Length == 8 && block.Length == BLOCK
      && |head| % BLOCK == 0 && |tail| == buffered < BLOCK
      && state[..] == Absorb(head) && block[..buffered] == tail
    }

    ghost function Message(): seq<Byte>
      reads this
    {
      head + tail
    }

    ghost predicate Valid()
      reads this, state, block
    {
      Aligned() && totalBytes == |Message()|
    }

    constructor ()
      ensures Valid() && Message() == [] && fresh(state) && fresh(block)
    {
      state := new Word[8](i requires 0 <= i < 8 => INITIAL[i]);
      block := new Byte[BLOCK](_ => 0);
      buffered, totalBytes, head, tail := 0, 0, [], [];
      new;
      assert state[..] == INITIAL;
    }

    method Update(data: seq<Byte>) returns (ok: bool)
      requires Valid()
      modifies this, state, block
      ensures Valid()
      ensures ok <==> |old(Message())| + |data| <= U64_MAX
      ensures Message() == if ok then old(Message()) + data else old(Message())
    {
      hide Absorb;
      assert old(Message()) + data[..0] == old(Message());
      if |data| > U64_MAX - totalBytes { return false; }
      totalBytes := totalBytes + |data|;
      var position := 0;
      if buffered != 0 {
        position := FillBuffer(data);
      }
      while |data| - position >= BLOCK
        invariant 0 <= position <= |data| && Aligned() && (buffered == 0 || position == |data|)
        invariant Message() == old(Message()) + data[..position] && totalBytes == |old(Message())| + |data|
      {
        TakeBlock(data[position..position + BLOCK]);
        assert data[..position + BLOCK] == data[..position] + data[position..position + BLOCK];
        position := position + BLOCK;
      }
      if position < |data| {
        KeepTail(data[position..]);
        assert data == data[..position] + data[position..];
      } else {
        assert data[..position] == data;
      }
      ok := true;
    }

    /** Completes the buffered block from the front of `data`, as far as it reaches. */
    method FillBuffer(data: seq<Byte>) returns (copied: nat)
      requires Aligned() && buffered != 0
      modifies this`buffered, this`head, this`tail, state, block
      ensures Aligned() && copied <= |data| && (buffered == 0 || copied == |data|)
      ensures Message() == old(Message()) + data[..copied]
    {
      hide Compress, Absorb;
      copied := if |data| < BLOCK - buffered then |data| else BLOCK - buffered;
      CopyIn(data[..copied]);
      tail := tail + data[..copied];
      buffered := buffered + copied;
      if buffered == BLOCK {
        CompleteBlock();
      }
    }

    /** Compresses the full buffer. */
    method CompleteBlock()
      requires state.Length == 8 && block.Length == BLOCK && |head| % BLOCK == 0 && buffered == |tail| == BLOCK
      requires state[..] == Absorb(head) && block[..buffered] == tail
      modifies this`buffered, this`head, this`tail, state
      ensures Aligned() && buffered == 0 && Message() == old(Message())
    {
      ghost var all := head + tail;
      AbsorbBlock(head, tail);
      assert block[..] == tail && all + [] == all;
      hide Compress, Absorb;
      Sha256.ProcessBlock(block[..], state);
      head, tail, buffered := all, [], 0;
    }

    /** std::copy_n behind the buffered bytes. */
    method CopyIn(part: seq<Byte>)
      requires block.Length == BLOCK && buffered + |part| <= BLOCK
      modifies block
      ensures block[..buffered + |part|] == old(block[..buffered]) + part
    {
      forall i | 0 <= i < |part| {
        block[buffered + i] := part[i];
      }
    }

    method TakeBlock(part: seq<Byte>)
      requires Aligned() && buffered == 0 && |part| == BLOCK
      modifies state, this`head
      ensures Aligned() && Message() == old(Message()) + part
    {
      hide Compress;
      Sha256.ProcessBlock(part, state);
      AbsorbBlock(head, part);
      head := head + part;
    }

    method KeepTail(part: seq<Byte>)
      requires Aligned() && buffered == 0 && |part| < BLOCK
      modifies this`buffered, this`tail, block
      ensures Aligned() && Message() == old(Message()) + part
    {
      hide Compress;
      CopyIn(part);
      buffered, tail := |part|, part;
    }

    /** sha256_finish, which works on a copy of the stream. */
    method Finish() returns (digest: Option<string>)
      requires Valid()
      ensures digest == if |Message()| > U64_MAX / 8 then None else Some(Digest(Message()))
    {
      hide Absorb, Hash, Hex;
      if totalBytes > U64_MAX / 8 { return None; }
      var h := FinalWords();
      var text := HexText(h);
      digest := Some(text);
    }

    method FinalWords() returns (h: seq<Word>)
      requires Valid()
      ensures h == Hash(Message())
    {
      hide Absorb, Hash, Closed;
      HashByBlocks(head, tail);
      assert block[..][..buffered] == tail;
      h := CloseCopy(state[..], block[..], buffered, totalBytes * 8, tail);
    }
  }

  /** The last blocks, on a copy of the state and the buffer. */
  method CloseCopy(state: seq<Word>, block: seq<Byte>, buffered: nat, bits: nat, ghost tail: seq<Byte>)
    returns (r: seq<Word>)
    requires |state| == 8 && |block| == BLOCK && buffered == |tail| < BLOCK && block[..buffered] == tail
    ensures r == Closed(state, tail, bits)
  {
    hide Closed;
    var h := new Word[8](i requires 0 <= i < 8 => state[i]);
    var b := new Byte[BLOCK](i requires 0 <= i < BLOCK => block[i]);
    assert h[..] == state && b[..buffered] == tail;
    Close(h, b, buffered, bits, tail);
    r := h[..];
  }

  /** Appends the end marker, the zeros and the length, compressing one block or two. */
  method Close(h: array<Word>, b: array<Byte>, buffered: nat, bits: nat, ghost tail: seq<Byte>)
    requires h.Length == 8 && b.Length == BLOCK && buffered == |tail| < BLOCK && b[..buffered] == tail
    modifies h, b
    ensures h[..] == Closed(old(h[..]), tail, bits)
  {
    hide Compress, BigEndian;
    var n := buffered;
    b[n] := 0x80;
    n := n + 1;
    assert b[..n] == tail + [0x80];
    if n > 56 {
      FillZero(b, n);
      assert b[..] == Spill(tail);
      Sha256.ProcessBlock(b[..], h);
      n := 0;
    }
    FillZero(b, n);
    PutLength(b, bits);
    assert b[..] == Closing(tail, bits);
    Sha256.ProcessBlock(b[..], h);
  }

  /** std::fill from n to the end. */
  method FillZero(b: array<Byte>, n: nat)
    requires n <= b.Length == BLOCK
    modifies b
    ensures b[..] == old(b[..n]) + Zeros(BLOCK - n)
  {
    forall i | n <= i < BLOCK { b[i] := 0; }
  }

  method PutLength(b: array<Byte>, bits: nat)
    requires b.Length == BLOCK
    modifies b
    ensures b[..] == old(b[..56]) + BigEndian(bits, 8)
  {
    ghost var n := BigEndian(bits, 8);
    for i := 0 to 8
      invariant b[..56] == old(b[..56])
      invariant forall p :: 64 - i <= p < 64 ==> b[p] == n[p - 56]
    {
      BigEndianAt(bits, 8, i);
      b[63 - i] := LowByte(ShiftedBytes(bits, i));
    }
    assert b[..] == b[..56] + b[56..];
  }

  /** Each word as eight digits, one after the other. */
  method HexText(ws: seq<Word>) returns (text: string)
    ensures text == Hex(ws)
  {
    text := "";
    for i := 0 to |ws|
      invariant text == Hex(ws[..i])
    {
      text := text + HexWord(ws[i]);
      assert ws[..i + 1][..i] == ws[..i];
    }
    assert ws[..|ws|] == ws;
  }
}
