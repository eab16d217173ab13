/**
 SHA-256 against the standard itself: what the six functions do, and where the constants come
 from (sections 3.2, 4.1.2, 4.2.2 and 5.3.3 of FIPS 180-4).
 */
module Sha256Standard {
  import opened Sha256

  // ---------------------------------------------------------------------------------------
  // The six functions
  // ---------------------------------------------------------------------------------------

  /** The operations the digest is computed with are the functions below. */
  lemma OperationsInUse(x: bv32, y: bv32, z: bv32, i: int)
    ensures OPERATIONS.bigSigma0(x) == BigSigma0(x) && OPERATIONS.bigSigma1(x) == BigSigma1(x)
    ensures OPERATIONS.smallSigma0(x) == SmallSigma0(x) && OPERATIONS.smallSigma1(x) == SmallSigma1(x)
    ensures OPERATIONS.choose(x, y, z) == Choose(x, y, z) && OPERATIONS.majority(x, y, z) == Majority(x, y, z)
    ensures OPERATIONS.add(x, y) == Add32(x, y) && OPERATIONS.constant(i) == RoundConstant(i)
  {
  }

  /** Rotations are two shifts put together (section 3.2 of the standard). */
  lemma SigmasAreRotations(x: bv32)
    ensures BigSigma0(x) == ((x >> 2) | (x << 30)) ^ ((x >> 13) | (x << 19)) ^ ((x >> 22) | (x << 10))
    ensures BigSigma1(x) == ((x >> 6) | (x << 26)) ^ ((x >> 11) | (x << 21)) ^ ((x >> 25) | (x << 7))
    ensures SmallSigma0(x) == ((x >> 7) | (x << 25)) ^ ((x >> 18) | (x << 14)) ^ (x >> 3)
    ensures SmallSigma1(x) == ((x >> 17) | (x << 15)) ^ ((x >> 19) | (x << 13)) ^ (x >> 10)
  {
  }

  /** Where the first word has a one the choice is the second word's bit, elsewhere the third's. */
  lemma ChooseSelects(x: bv32, y: bv32, z: bv32)
    ensures Choose(x, y, z) & x == y & x && Choose(x, y, z) & !x == z & !x
  {
  }

  /** A bit of the majority is set when two of the three words have it set. */
  lemma MajorityCounts(x: bv32, y: bv32, z: bv32)
    ensures Majority(x, y, z) == (x & y) | (x & z) | (y & z)
  {
  }

  // ---------------------------------------------------------------------------------------
  // The constants
  // ---------------------------------------------------------------------------------------

  /** `c` is the first 32 bits of the fraction of the cube root of `p`, whose whole part is `whole`. */
  predicate CubeRootFraction(c: nat, p: nat, whole: nat) {
    var k := whole * 0x1_0000_0000 + c;
    k * k * k <= p * 0x1_0000_0000_0000_0000_0000_0000 < (k + 1) * (k + 1) * (k + 1)
  }

  /** The same for the square root. */
  predicate SquareRootFraction(c: nat, p: nat, whole: nat) {
    var k := whole * 0x1_0000_0000 + c;
    k * k <= p * 0x1_0000_0000_0000_0000 < (k + 1) * (k + 1)
  }

  /** The initial state: the square roots of the first eight primes. */
  lemma InitialStateIsSquareRoots()
    ensures INITIAL_STATE == State(
      0x6a09e667, 0xbb67ae85, 0x3c6ef372, 0xa54ff53a,
      0x510e527f, 0x9b05688c, 0x1f83d9ab, 0x5be0cd19)
    ensures SquareRootFraction(0x6a09e667, 2, 1) && SquareRootFraction(0xbb67ae85, 3, 1)
    ensures SquareRootFraction(0x3c6ef372, 5, 2) && SquareRootFraction(0xa54ff53a, 7, 2)
    ensures SquareRootFraction(0x510e527f, 11, 3) && SquareRootFraction(0x9b05688c, 13, 3)
    ensures SquareRootFraction(0x1f83d9ab, 17, 4) && SquareRootFraction(0x5be0cd19, 19, 4)
  {
  }

  /** The cube roots of the primes from 2 to 19. */
  lemma ConstantsFrom0()
    ensures RoundConstant(0) == 0x428a2f98 && CubeRootFraction(0x428a2f98, 2, 1)
    ensures RoundConstant(1) == 0x71374491 && CubeRootFraction(0x71374491, 3, 1)
    ensures RoundConstant(2) == 0xb5c0fbcf && CubeRootFraction(0xb5c0fbcf, 5, 1)
    ensures RoundConstant(3) == 0xe9b5dba5 && CubeRootFraction(0xe9b5dba5, 7, 1)
    ensures RoundConstant(4) == 0x3956c25b && CubeRootFraction(0x3956c25b, 11, 2)
    ensures RoundConstant(5) == 0x59f111f1 && CubeRootFraction(0x59f111f1, 13, 2)
    ensures RoundConstant(6) == 0x923f82a4 && CubeRootFraction(0x923f82a4, 17, 2)
    ensures RoundConstant(7) == 0xab1c5ed5 && CubeRootFraction(0xab1c5ed5, 19, 2)
  {
  }

  /** The cube roots of the primes from 23 to 53. */
  lemma ConstantsFrom8()
    ensures RoundConstant(8) == 0xd807aa98 && CubeRootFraction(0xd807aa98, 23, 2)
    ensures RoundConstant(9) == 0x12835b01 && CubeRootFraction(0x12835b01, 29, 3)
    ensures RoundConstant(10) == 0x243185be && CubeRootFraction(0x243185be, 31, 3)
    ensures RoundConstant(11) == 0x550c7dc3 && CubeRootFraction(0x550c7dc3, 37, 3)
    ensures RoundConstant(12) == 0x72be5d74 && CubeRootFraction(0x72be5d74, 41, 3)
    ensures RoundConstant(13) == 0x80deb1fe && CubeRootFraction(0x80deb1fe, 43, 3)
    ensures RoundConstant(14) == 0x9bdc06a7 && CubeRootFraction(0x9bdc06a7, 47, 3)
    ensures RoundConstant(15) == 0xc19bf174 && CubeRootFraction(0xc19bf174, 53, 3)
  {
  }

  /** The cube roots of the primes from 59 to 89. */
  lemma ConstantsFrom16()
    ensures RoundConstant(16) == 0xe49b69c1 && CubeRootFraction(0xe49b69c1, 59, 3)
    ensures RoundConstant(17) == 0xefbe4786 && CubeRootFraction(0xefbe4786, 61, 3)
    ensures RoundConstant(18) == 0x0fc19dc6 && CubeRootFraction(0x0fc19dc6, 67, 4)
    ensures RoundConstant(19) == 0x240ca1cc && CubeRootFraction(0x240ca1cc, 71, 4)
    ensures RoundConstant(20) == 0x2de92c6f && CubeRootFraction(0x2de92c6f, 73, 4)
    ensures RoundConstant(21) == 0x4a7484aa && CubeRootFraction(0x4a7484aa, 79, 4)
    ensures RoundConstant(22) == 0x5cb0a9dc && CubeRootFraction(0x5cb0a9dc, 83, 4)
    ensures RoundConstant(23) == 0x76f988da && CubeRootFraction(0x76f988da, 89, 4)
  {
  }

  /** The cube roots of the primes from 97 to 131. */
  lemma ConstantsFrom24()
    ensures RoundConstant(24) == 0x983e5152 && CubeRootFraction(0x983e5152, 97, 4)
    ensures RoundConstant(25) == 0xa831c66d && CubeRootFraction(0xa831c66d, 101, 4)
    ensures RoundConstant(26) == 0xb00327c8 && CubeRootFraction(0xb00327c8, 103, 4)
    ensures RoundConstant(27) == 0xbf597fc7 && CubeRootFraction(0xbf597fc7, 107, 4)
    ensures RoundConstant(28) == 0xc6e00bf3 && CubeRootFraction(0xc6e00bf3, 109, 4)
    ensures RoundConstant(29) == 0xd5a79147 && CubeRootFraction(0xd5a79147, 113, 4)
    ensures RoundConstant(30) == 0x06ca6351 && CubeRootFraction(0x06ca6351, 127, 5)
    ensures RoundConstant(31) == 0x14292967 && CubeRootFraction(0x14292967, 131, 5)
  {
  }

  /** The cube roots of the primes from 137 to 173. */
  lemma ConstantsFrom32()
    ensures RoundConstant(32) == 0x27b70a85 && CubeRootFraction(0x27b70a85, 137, 5)
    ensures RoundConstant(33) == 0x2e1b2138 && CubeRootFraction(0x2e1b2138, 139, 5)
    ensures RoundConstant(34) == 0x4d2c6dfc && CubeRootFraction(0x4d2c6dfc, 149, 5)
    ensures RoundConstant(35) == 0x53380d13 && CubeRootFraction(0x53380d13, 151, 5)
    ensures RoundConstant(36) == 0x650a7354 && CubeRootFraction(0x650a7354, 157, 5)
    ensures RoundConstant(37) == 0x766a0abb && CubeRootFraction(0x766a0abb, 163, 5)
    ensures RoundConstant(38) == 0x81c2c92e && CubeRootFraction(0x81c2c92e, 167, 5)
    ensures RoundConstant(39) == 0x92722c85 && CubeRootFraction(0x92722c85, 173, 5)
  {
  }

  /** The cube roots of the primes from 179 to 223. */
  lemma ConstantsFrom40()
    ensures RoundConstant(40) == 0xa2bfe8a1 && CubeRootFraction(0xa2bfe8a1, 179, 5)
    ensures RoundConstant(41) == 0xa81a664b && CubeRootFraction(0xa81a664b, 181, 5)
    ensures RoundConstant(42) == 0xc24b8b70 && CubeRootFraction(0xc24b8b70, 191, 5)
    ensures RoundConstant(43) == 0xc76c51a3 && CubeRootFraction(0xc76c51a3, 193, 5)
    ensures RoundConstant(44) == 0xd192e819 && CubeRootFraction(0xd192e819, 197, 5)
    ensures RoundConstant(45) == 0xd6990624 && CubeRootFraction(0xd6990624, 199, 5)
    ensures RoundConstant(46) == 0xf40e3585 && CubeRootFraction(0xf40e3585, 211, 5)
    ensures RoundConstant(47) == 0x106aa070 && CubeRootFraction(0x106aa070, 223, 6)
  {
  }

  /** The cube roots of the primes from 227 to 263. */
  lemma ConstantsFrom48()
    ensures RoundConstant(48) == 0x19a4c116 && CubeRootFraction(0x19a4c116, 227, 6)
    ensures RoundConstant(49) == 0x1e376c08 && CubeRootFraction(0x1e376c08, 229, 6)
    ensures RoundConstant(50) == 0x2748774c && CubeRootFraction(0x2748774c, 233, 6)
    ensures RoundConstant(51) == 0x34b0bcb5 && CubeRootFraction(0x34b0bcb5, 239, 6)
    ensures RoundConstant(52) == 0x391c0cb3 && CubeRootFraction(0x391c0cb3, 241, 6)
    ensures RoundConstant(53) == 0x4ed8aa4a && CubeRootFraction(0x4ed8aa4a, 251, 6)
    ensures RoundConstant(54) == 0x5b9cca4f && CubeRootFraction(0x5b9cca4f, 257, 6)
    ensures RoundConstant(55) == 0x682e6ff3 && CubeRootFraction(0x682e6ff3, 263, 6)
  {
  }

  /** The cube roots of the primes from 269 to 311. */
  lemma ConstantsFrom56()
    ensures RoundConstant(56) == 0x748f82ee && CubeRootFraction(0x748f82ee, 269, 6)
    ensures RoundConstant(57) == 0x78a5636f && CubeRootFraction(0x78a5636f, 271, 6)
    ensures RoundConstant(58) == 0x84c87814 && CubeRootFraction(0x84c87814, 277, 6)
    ensures RoundConstant(59) == 0x8cc70208 && CubeRootFraction(0x8cc70208, 281, 6)
    ensures RoundConstant(60) == 0x90befffa && CubeRootFraction(0x90befffa, 283, 6)
    ensures RoundConstant(61) == 0xa4506ceb && CubeRootFraction(0xa4506ceb, 293, 6)
    ensures RoundConstant(62) == 0xbef9a3f7 && CubeRootFraction(0xbef9a3f7, 307, 6)
    ensures RoundConstant(63) == 0xc67178f2 && CubeRootFraction(0xc67178f2, 311, 6)
  {
  }

  // ---------------------------------------------------------------------------------------
  // The printed digest
  // ---------------------------------------------------------------------------------------

  /** The number that these hexadecimal digits write, most significant first. */
  function Number(d: seq<nat>): nat {
    if d == [] then 0 else 16 * Number(d[..|d| - 1]) + d[|d| - 1]
  }

  lemma {:induction false} LastDigit(n: nat, k: nat, q: nat, d: nat)
    requires n == 16 * q + d && d < 16
    ensures Hex(n, k + 1) == Hex(q, k) + [HexDigit(d)]
  {
    assert n / 16 == q && n % 16 == d;
  }

  /** A number is printed as the digits that write it. */
  lemma {:induction false} HexOfDigits(d: seq<nat>)
    requires forall i :: 0 <= i < |d| ==> d[i] < 16
    ensures Hex(Number(d), |d|) == seq(|d|, i requires 0 <= i < |d| => HexDigit(d[i]))
  {
    if d != [] {
      var front := d[..|d| - 1];
      HexOfDigits(front);
      LastDigit(Number(d), |front|, Number(front), d[|d| - 1]);
    }
  }

  /** The words are printed in order, eight digits each. */
  lemma {:induction false} HexWordsAt(words: seq<bv32>, i: nat)
    requires i < |words|
    ensures HexWords(words)[8 * i..8 * (i + 1)] == HexWord(words[i])
  {
    var front, rest := HexWord(words[0]), HexWords(words[1..]);
    assert HexWords(words) == front + rest;
    if i > 0 {
      HexWordsAt(words[1..], i - 1);
      assert (front + rest)[8 * i..8 * (i + 1)] == rest[8 * (i - 1)..8 * i];
    }
  }

  lemma HexDigitsAreStandard(n: nat)
    requires n < 16
    ensures HexDigit(n) == "0123456789abcdef"[n]
  {
  }
}
