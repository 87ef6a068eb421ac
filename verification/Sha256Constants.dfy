/** Where the SHA-256 constants come from: roots of the first primes, cut to 32 fractional bits. */
module Sha256Constants {
  import opened Sha256Spec

  const PRIME_ROWS: seq<seq<nat>> := [
    [2, 3, 5, 7, 11, 13, 17, 19],
    [23, 29, 31, 37, 41, 43, 47, 53],
    [59, 61, 67, 71, 73, 79, 83, 89],
    [97, 101, 103, 107, 109, 113, 127, 131],
    [137, 139, 149, 151, 157, 163, 167, 173],
    [179, 181, 191, 193, 197, 199, 211, 223],
    [227, 229, 233, 239, 241, 251, 257, 263],
    [269, 271, 277, 281, 283, 293, 307, 311]]

  /** x / 2^32 is the cube root of p cut to 32 fractional bits. */
  predicate CubeRoot(p: nat, x: nat) {
    x * x * x <= p * 0x1_0000_0000_0000_0000_0000_0000 < (x + 1) * (x + 1) * (x + 1)
  }

  predicate SquareRoot(p: nat, x: nat) {
    x * x <= p * 0x1_0000_0000_0000_0000 < (x + 1) * (x + 1)
  }

  /** Each constant is the fractional part of a root of a prime; the integer part is at most 6. */
  predicate IsCubeConstant(p: nat, k: Word) {
    var i := if p < 8 then 1 else if p < 27 then 2 else if p < 64 then 3 else if p < 125 then 4
      else if p < 216 then 5 else 6;
    CubeRoot(p, i * 0x1_0000_0000 + k as nat)
  }

  predicate IsSquareConstant(p: nat, k: Word) {
    var i := if p < 4 then 1 else if p < 9 then 2 else if p < 16 then 3 else 4;
    SquareRoot(p, i * 0x1_0000_0000 + k as nat)
  }

  /** One row of constants against one row of primes. */
  predicate CubeRow(ps: seq<nat>, ks: seq<Word>) {
    && |ps| == |ks| == 8
    && IsCubeConstant(ps[0], ks[0]) && IsCubeConstant(ps[1], ks[1]) && IsCubeConstant(ps[2], ks[2])
    && IsCubeConstant(ps[3], ks[3]) && IsCubeConstant(ps[4], ks[4]) && IsCubeConstant(ps[5], ks[5])
    && IsCubeConstant(ps[6], ks[6]) && IsCubeConstant(ps[7], ks[7])
  }

  lemma RoundConstants0()
    ensures CubeRow(PRIME_ROWS[0], K_ROWS[0])
  {
    assert IsCubeConstant(2, 0x428a2f98) && IsCubeConstant(3, 0x71374491);
    assert IsCubeConstant(5, 0xb5c0fbcf) && IsCubeConstant(7, 0xe9b5dba5);
    assert IsCubeConstant(11, 0x3956c25b) && IsCubeConstant(13, 0x59f111f1);
    assert IsCubeConstant(17, 0x923f82a4) && IsCubeConstant(19, 0xab1c5ed5);
    hide IsCubeConstant;
  }

  lemma RoundConstants1()
    ensures CubeRow(PRIME_ROWS[1], K_ROWS[1])
  {
    assert IsCubeConstant(23, 0xd807aa98) && IsCubeConstant(29, 0x12835b01);
    assert IsCubeConstant(31, 0x243185be) && IsCubeConstant(37, 0x550c7dc3);
    assert IsCubeConstant(41, 0x72be5d74) && IsCubeConstant(43, 0x80deb1fe);
    assert IsCubeConstant(47, 0x9bdc06a7) && IsCubeConstant(53, 0xc19bf174);
    hide IsCubeConstant;
  }

  lemma RoundConstants2()
    ensures CubeRow(PRIME_ROWS[2], K_ROWS[2])
  {
    assert IsCubeConstant(59, 0xe49b69c1) && IsCubeConstant(61, 0xefbe4786);
    assert IsCubeConstant(67, 0x0fc19dc6) && IsCubeConstant(71, 0x240ca1cc);
    assert IsCubeConstant(73, 0x2de92c6f) && IsCubeConstant(79, 0x4a7484aa);
    assert IsCubeConstant(83, 0x5cb0a9dc) && IsCubeConstant(89, 0x76f988da);
    hide IsCubeConstant;
  }

  lemma RoundConstants3()
    ensures CubeRow(PRIME_ROWS[3], K_ROWS[3])
  {
    assert IsCubeConstant(97, 0x983e5152) && IsCubeConstant(101, 0xa831c66d);
    assert IsCubeConstant(103, 0xb00327c8) && IsCubeConstant(107, 0xbf597fc7);
    assert IsCubeConstant(109, 0xc6e00bf3) && IsCubeConstant(113, 0xd5a79147);
    assert IsCubeConstant(127, 0x06ca6351) && IsCubeConstant(131, 0x14292967);
    hide IsCubeConstant;
  }

  lemma RoundConstants4()
    ensures CubeRow(PRIME_ROWS[4], K_ROWS[4])
  {
    assert IsCubeConstant(137, 0x27b70a85) && IsCubeConstant(139, 0x2e1b2138);
    assert IsCubeConstant(149, 0x4d2c6dfc) && IsCubeConstant(151, 0x53380d13);
    assert IsCubeConstant(157, 0x650a7354) && IsCubeConstant(163, 0x766a0abb);
    assert IsCubeConstant(167, 0x81c2c92e) && IsCubeConstant(173, 0x92722c85);
    hide IsCubeConstant;
  }

  lemma RoundConstants5()
    ensures CubeRow(PRIME_ROWS[5], K_ROWS[5])
  {
    assert IsCubeConstant(179, 0xa2bfe8a1) && IsCubeConstant(181, 0xa81a664b);
    assert IsCubeConstant(191, 0xc24b8b70) && IsCubeConstant(193, 0xc76c51a3);
    assert IsCubeConstant(197, 0xd192e819) && IsCubeConstant(199, 0xd6990624);
    assert IsCubeConstant(211, 0xf40e3585) && IsCubeConstant(223, 0x106aa070);
    hide IsCubeConstant;
  }

  lemma RoundConstants6()
    ensures CubeRow(PRIME_ROWS[6], K_ROWS[6])
  {
    assert IsCubeConstant(227, 0x19a4c116) && IsCubeConstant(229, 0x1e376c08);
    assert IsCubeConstant(233, 0x2748774c) && IsCubeConstant(239, 0x34b0bcb5);
    assert IsCubeConstant(241, 0x391c0cb3) && IsCubeConstant(251, 0x4ed8aa4a);
    assert IsCubeConstant(257, 0x5b9cca4f) && IsCubeConstant(263, 0x682e6ff3);
    hide IsCubeConstant;
  }

  lemma RoundConstants7()
    ensures CubeRow(PRIME_ROWS[7], K_ROWS[7])
  {
    assert IsCubeConstant(269, 0x748f82ee) && IsCubeConstant(271, 0x78a5636f);
    assert IsCubeConstant(277, 0x84c87814) && IsCubeConstant(281, 0x8cc70208);
    assert IsCubeConstant(283, 0x90befffa) && IsCubeConstant(293, 0xa4506ceb);
    assert IsCubeConstant(307, 0xbef9a3f7) && IsCubeConstant(311, 0xc67178f2);
    hide IsCubeConstant;
  }

  /** Section 4.2.2: every round constant is the cube root of its prime. */
  lemma RoundConstantsAreRoots()
    ensures |K_ROWS| == |PRIME_ROWS| == 8
    ensures forall r :: 0 <= r < 8 ==> CubeRow(PRIME_ROWS[r], K_ROWS[r])
  {
    RoundConstants0(); RoundConstants1(); RoundConstants2(); RoundConstants3();
    RoundConstants4(); RoundConstants5(); RoundConstants6(); RoundConstants7();
  }

  /** Section 5.3.3: the square roots of the first eight. */
  lemma InitialWordIsRoot(t: nat)
    requires t < 8
    ensures IsSquareConstant(PRIME_ROWS[0][t], INITIAL[t])
  {
    assert IsSquareConstant(2, 0x6a09e667) && IsSquareConstant(3, 0xbb67ae85);
    assert IsSquareConstant(5, 0x3c6ef372) && IsSquareConstant(7, 0xa54ff53a);
    assert IsSquareConstant(11, 0x510e527f) && IsSquareConstant(13, 0x9b05688c);
    assert IsSquareConstant(17, 0x1f83d9ab) && IsSquareConstant(19, 0x5be0cd19);
    hide IsSquareConstant;
  }
}
