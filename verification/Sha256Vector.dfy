/**
 The published digest of "abc", computed: the padded block, its message schedule and the sixty-four rounds,
 from the functions and constants the digest is defined with.
 */
module Sha256Vector {
  import opened Common
  import opened Sha256
  import opened Sha256Standard

  const ABC: Bytes := [97, 98, 99]

  /** The registers after the last round. */
  const LAST_REGISTERS: State<bv32> :=
    State(0x506e3058, 0xd39a2165, 0x04d24d6c, 0xb85e2ce9, 0x5ef50f24, 0xfb121210, 0x948d25b6, 0x961f4894)

  /** The words of the published digest, ba7816bf 8f01cfea 414140de 5dae2223 b00361a3 96177a9c b410ff61 f20015ad. */
  const PUBLISHED: State<bv32> :=
    State(0xba7816bf, 0x8f01cfea, 0x414140de, 0x5dae2223, 0xb00361a3, 0x96177a9c, 0xb410ff61, 0xf20015ad)

  // ---------------------------------------------------------------------------------------
  // The padded block
  // ---------------------------------------------------------------------------------------

  ghost predicate IsAbcBlock(block: Block) {
    && block[0] == 97 && block[1] == 98 && block[2] == 99 && block[3] == 0x80 && block[63] == 24
    && forall i :: 4 <= i < 63 ==> block[i] == 0
  }

  lemma {:induction false} ZerosAreZero(k: nat, i: nat)
    requires i < k
    ensures Zeros(k)[i] == 0
  {
    if i < k - 1 {
      ZerosAreZero(k - 1, i);
    }
  }

  lemma PaddedAbc()
    ensures |Pad(ABC)| == 64 && IsAbcBlock(Pad(ABC))
  {
    var p := Pad(ABC);
    assert ZeroCount(3) == 52 && BitLength(3) == 24;
    assert p == ABC + [0x80] + Zeros(52) + BigEndian(24, 8);
    assert BigEndian(24, 8) == [0, 0, 0, 0, 0, 0, 0, 24];
    forall i | 4 <= i < 56 ensures p[i] == 0 {
      ZerosAreZero(52, i - 4);
    }
  }

  // ---------------------------------------------------------------------------------------
  // Its schedule and its rounds, four at a time
  // ---------------------------------------------------------------------------------------

  /** `x` is the schedule word that these four make. */
  predicate Makes(w16: bv32, w15: bv32, w7: bv32, w2: bv32, x: bv32) {
    x == Add32(Add32(Add32(w16, SmallSigma0(w15)), w7), SmallSigma1(w2))
  }

  /** `a` and `e` enter the registers after these, in a round with this constant and message word. */
  predicate Enters(a1: bv32, a2: bv32, a3: bv32, a4: bv32, e1: bv32, e2: bv32, e3: bv32, e4: bv32,
                   k: bv32, x: bv32, a: bv32, e: bv32) {
    var t1 := Add32(Add32(Add32(Add32(e4, BigSigma1(e1)), Choose(e1, e2, e3)), k), x);
    a == Add32(t1, Add32(BigSigma0(a1), Majority(a1, a2, a3))) && e == Add32(a4, t1)
  }

  /** Marks the moments at which the laws below are applied. */
  predicate Due(t: nat) {
    true
  }

  predicate MadeAt(w: seq<bv32>, t: nat)
    requires 16 <= t < |w|
  {
    Makes(w[t - 16], w[t - 15], w[t - 7], w[t - 2], w[t])
  }

  /** A message schedule: its words follow from earlier ones. */
  ghost predicate Schedules(w: seq<bv32>) {
    forall t: nat {:trigger Due(t)} :: 16 <= t < |w| && Due(t) ==> MadeAt(w, t)
  }

  /** The registers after each round: they follow from those before. */
  ghost predicate Proceeds(w: seq<bv32>, after: nat -> State<bv32>) {
    |w| == 64 && forall t: nat {:trigger Due(t)} :: t < 64 && Due(t) ==>
      var s, next := after(t), after(t + 1);
      && Enters(s.a, s.b, s.c, s.d, s.e, s.f, s.g, s.h, RoundConstant(t), w[t], next.a, next.e)
      && next == State(next.a, s.a, s.b, s.c, next.e, s.e, s.f, s.g)
  }

  /** The four words from number `t` on. */
  predicate Has(w: seq<bv32>, t: nat, x0: bv32, x1: bv32, x2: bv32, x3: bv32) {
    t + 4 <= |w| && w[t] == x0 && w[t + 1] == x1 && w[t + 2] == x2 && w[t + 3] == x3
  }

  lemma NextWord32(w: seq<bv32>, t: nat, w16: bv32, w15: bv32, w7: bv32, w2: bv32, x: bv32)
    requires Schedules(w) && 16 <= t < |w| && Makes(w16, w15, w7, w2, x)
    requires w[t - 16] == w16 && w[t - 15] == w15 && w[t - 7] == w7 && w[t - 2] == w2
    ensures w[t] == x
  {
    assert Due(t);
  }

  lemma NextRegisters(w: seq<bv32>, after: nat -> State<bv32>, t: nat, s: State<bv32>, k: bv32, x: bv32, a: bv32, e: bv32)
    requires Proceeds(w, after) && t < 64 && after(t) == s && w[t] == x && RoundConstant(t) == k
    requires Enters(s.a, s.b, s.c, s.d, s.e, s.f, s.g, s.h, k, x, a, e)
    ensures after(t + 1) == State(a, s.a, s.b, s.c, e, s.e, s.f, s.g)
  {
    assert Due(t);
  }

  /** Four words from those before them. */
  lemma FourWords(w: seq<bv32>, t: nat, u0: bv32, u1: bv32, u2: bv32, u3: bv32, u4: bv32,
                  v0: bv32, v1: bv32, v2: bv32, v3: bv32, z2: bv32, z3: bv32,
                  x0: bv32, x1: bv32, x2: bv32, x3: bv32)
    requires Schedules(w) && 16 <= t <= |w| - 4 && Has(w, t - 16, u0, u1, u2, u3) && w[t - 12] == u4
    requires Has(w, t - 7, v0, v1, v2, v3) && w[t - 2] == z2 && w[t - 1] == z3
    requires Makes(u0, u1, v0, z2, x0) && Makes(u1, u2, v1, z3, x1) && Makes(u2, u3, v2, x0, x2) && Makes(u3, u4, v3, x1, x3)
    ensures Has(w, t, x0, x1, x2, x3)
  {
    NextWord32(w, t, u0, u1, v0, z2, x0);
    NextWord32(w, t + 1, u1, u2, v1, z3, x1);
    NextWord32(w, t + 2, u2, u3, v2, x0, x2);
    NextWord32(w, t + 3, u3, u4, v3, x1, x3);
  }

  /** Four rounds, each with its constant, its word and what enters. */
  lemma FourRounds(w: seq<bv32>, after: nat -> State<bv32>, t: nat,
                   a0: bv32, b0: bv32, c0: bv32, d0: bv32, e0: bv32, f0: bv32, g0: bv32, h0: bv32,
                   k0: bv32, x0: bv32, a1: bv32, e1: bv32, k1: bv32, x1: bv32, a2: bv32, e2: bv32,
                   k2: bv32, x2: bv32, a3: bv32, e3: bv32, k3: bv32, x3: bv32, a4: bv32, e4: bv32)
    requires Proceeds(w, after) && t <= 60 && after(t) == State(a0, b0, c0, d0, e0, f0, g0, h0) && Has(w, t, x0, x1, x2, x3)
    requires RoundConstant(t) == k0 && RoundConstant(t + 1) == k1 && RoundConstant(t + 2) == k2 && RoundConstant(t + 3) == k3
    requires Enters(a0, b0, c0, d0, e0, f0, g0, h0, k0, x0, a1, e1)
    requires Enters(a1, a0, b0, c0, e1, e0, f0, g0, k1, x1, a2, e2)
    requires Enters(a2, a1, a0, b0, e2, e1, e0, f0, k2, x2, a3, e3)
    requires Enters(a3, a2, a1, a0, e3, e2, e1, e0, k3, x3, a4, e4)
    ensures after(t + 4) == State(a4, a3, a2, a1, e4, e3, e2, e1)
  {
    NextRegisters(w, after, t, State(a0, b0, c0, d0, e0, f0, g0, h0), k0, x0, a1, e1);
    NextRegisters(w, after, t + 1, State(a1, a0, b0, c0, e1, e0, f0, g0), k1, x1, a2, e2);
    NextRegisters(w, after, t + 2, State(a2, a1, a0, b0, e2, e1, e0, f0), k2, x2, a3, e3);
    NextRegisters(w, after, t + 3, State(a3, a2, a1, a0, e3, e2, e1, e0), k3, x3, a4, e4);
  }

  lemma Words16(w: seq<bv32>)
    requires Schedules(w) && |w| == 64
    requires Has(w, 0, 0x61626380, 0x00000000, 0x00000000, 0x00000000)
    requires Has(w, 4, 0x00000000, 0x00000000, 0x00000000, 0x00000000)
    requires Has(w, 8, 0x00000000, 0x00000000, 0x00000000, 0x00000000)
    requires Has(w, 12, 0x00000000, 0x00000000, 0x00000000, 0x00000018)
    ensures Has(w, 16, 0x61626380, 0x000f0000, 0x7da86405, 0x600003c6)
    ensures Has(w, 20, 0x3e9d7b78, 0x0183fc00, 0x12dcbfdb, 0xe2e2c38e)
  {
    FourWords(w, 16, 0x61626380, 0x00000000, 0x00000000, 0x00000000, 0x00000000,
              0x00000000, 0x00000000, 0x00000000, 0x00000000, 0x00000000, 0x00000018,
              0x61626380, 0x000f0000, 0x7da86405, 0x600003c6);
    FourWords(w, 20, 0x00000000, 0x00000000, 0x00000000, 0x00000000, 0x00000000,
              0x00000000, 0x00000000, 0x00000018, 0x61626380, 0x7da86405, 0x600003c6,
              0x3e9d7b78, 0x0183fc00, 0x12dcbfdb, 0xe2e2c38e);
  }

  lemma Words24(w: seq<bv32>)
    requires Schedules(w) && |w| == 64
    requires Has(w, 8, 0x00000000, 0x00000000, 0x00000000, 0x00000000)
    requires Has(w, 12, 0x00000000, 0x00000000, 0x00000000, 0x00000018)
    requires Has(w, 16, 0x61626380, 0x000f0000, 0x7da86405, 0x600003c6)
    requires Has(w, 20, 0x3e9d7b78, 0x0183fc00, 0x12dcbfdb, 0xe2e2c38e)
    ensures Has(w, 24, 0xc8215c1a, 0xb73679a2, 0xe5bc3909, 0x32663c5b)
    ensures Has(w, 28, 0x9d209d67, 0xec8726cb, 0x702138a4, 0xd3b7973b)
  {
    FourWords(w, 24, 0x00000000, 0x00000000, 0x00000000, 0x00000000, 0x00000000,
              0x000f0000, 0x7da86405, 0x600003c6, 0x3e9d7b78, 0x12dcbfdb, 0xe2e2c38e,
              0xc8215c1a, 0xb73679a2, 0xe5bc3909, 0x32663c5b);
    FourWords(w, 28, 0x00000000, 0x00000000, 0x00000000, 0x00000018, 0x61626380,
              0x0183fc00, 0x12dcbfdb, 0xe2e2c38e, 0xc8215c1a, 0xe5bc3909, 0x32663c5b,
              0x9d209d67, 0xec8726cb, 0x702138a4, 0xd3b7973b);
  }

  lemma Words32(w: seq<bv32>)
    requires Schedules(w) && |w| == 64
    requires Has(w, 16, 0x61626380, 0x000f0000, 0x7da86405, 0x600003c6)
    requires Has(w, 20, 0x3e9d7b78, 0x0183fc00, 0x12dcbfdb, 0xe2e2c38e)
    requires Has(w, 24, 0xc8215c1a, 0xb73679a2, 0xe5bc3909, 0x32663c5b)
    requires Has(w, 28, 0x9d209d67, 0xec8726cb, 0x702138a4, 0xd3b7973b)
    ensures Has(w, 32, 0x93f5997f, 0x3b68ba73, 0xaff4ffc1, 0xf10a5c62)
    ensures Has(w, 36, 0x0a8b3996, 0x72af830a, 0x9409e33e, 0x24641522)
  {
    FourWords(w, 32, 0x61626380, 0x000f0000, 0x7da86405, 0x600003c6, 0x3e9d7b78,
              0xb73679a2, 0xe5bc3909, 0x32663c5b, 0x9d209d67, 0x702138a4, 0xd3b7973b,
              0x93f5997f, 0x3b68ba73, 0xaff4ffc1, 0xf10a5c62);
    FourWords(w, 36, 0x3e9d7b78, 0x0183fc00, 0x12dcbfdb, 0xe2e2c38e, 0xc8215c1a,
              0xec8726cb, 0x702138a4, 0xd3b7973b, 0x93f5997f, 0xaff4ffc1, 0xf10a5c62,
              0x0a8b3996, 0x72af830a, 0x9409e33e, 0x24641522);
  }

  lemma Words40(w: seq<bv32>)
    requires Schedules(w) && |w| == 64
    requires Has(w, 24, 0xc8215c1a, 0xb73679a2, 0xe5bc3909, 0x32663c5b)
    requires Has(w, 28, 0x9d209d67, 0xec8726cb, 0x702138a4, 0xd3b7973b)
    requires Has(w, 32, 0x93f5997f, 0x3b68ba73, 0xaff4ffc1, 0xf10a5c62)
    requires Has(w, 36, 0x0a8b3996, 0x72af830a, 0x9409e33e, 0x24641522)
    ensures Has(w, 40, 0x9f47bf94, 0xf0a64f5a, 0x3e246a79, 0x27333ba3)
    ensures Has(w, 44, 0x0c4763f2, 0x840abf27, 0x7a290d5d, 0x065c43da)
  {
    FourWords(w, 40, 0xc8215c1a, 0xb73679a2, 0xe5bc3909, 0x32663c5b, 0x9d209d67,
              0x3b68ba73, 0xaff4ffc1, 0xf10a5c62, 0x0a8b3996, 0x9409e33e, 0x24641522,
              0x9f47bf94, 0xf0a64f5a, 0x3e246a79, 0x27333ba3);
    FourWords(w, 44, 0x9d209d67, 0xec8726cb, 0x702138a4, 0xd3b7973b, 0x93f5997f,
              0x72af830a, 0x9409e33e, 0x24641522, 0x9f47bf94, 0x3e246a79, 0x27333ba3,
              0x0c4763f2, 0x840abf27, 0x7a290d5d, 0x065c43da);
  }

  lemma Words48(w: seq<bv32>)
    requires Schedules(w) && |w| == 64
    requires Has(w, 32, 0x93f5997f, 0x3b68ba73, 0xaff4ffc1, 0xf10a5c62)
    requires Has(w, 36, 0x0a8b3996, 0x72af830a, 0x9409e33e, 0x24641522)
    requires Has(w, 40, 0x9f47bf94, 0xf0a64f5a, 0x3e246a79, 0x27333ba3)
    requires Has(w, 44, 0x0c4763f2, 0x840abf27, 0x7a290d5d, 0x065c43da)
    ensures Has(w, 48, 0xfb3e89cb, 0xcc7617db, 0xb9e66c34, 0xa9993667)
    ensures Has(w, 52, 0x84badedd, 0xc21462bc, 0x1487472c, 0xb20f7a99)
  {
    FourWords(w, 48, 0x93f5997f, 0x3b68ba73, 0xaff4ffc1, 0xf10a5c62, 0x0a8b3996,
              0xf0a64f5a, 0x3e246a79, 0x27333ba3, 0x0c4763f2, 0x7a290d5d, 0x065c43da,
              0xfb3e89cb, 0xcc7617db, 0xb9e66c34, 0xa9993667);
    FourWords(w, 52, 0x0a8b3996, 0x72af830a, 0x9409e33e, 0x24641522, 0x9f47bf94,
              0x840abf27, 0x7a290d5d, 0x065c43da, 0xfb3e89cb, 0xb9e66c34, 0xa9993667,
              0x84badedd, 0xc21462bc, 0x1487472c, 0xb20f7a99);
  }

  lemma Words56(w: seq<bv32>)
    requires Schedules(w) && |w| == 64
    requires Has(w, 40, 0x9f47bf94, 0xf0a64f5a, 0x3e246a79, 0x27333ba3)
    requires Has(w, 44, 0x0c4763f2, 0x840abf27, 0x7a290d5d, 0x065c43da)
    requires Has(w, 48, 0xfb3e89cb, 0xcc7617db, 0xb9e66c34, 0xa9993667)
    requires Has(w, 52, 0x84badedd, 0xc21462bc, 0x1487472c, 0xb20f7a99)
    ensures Has(w, 56, 0xef57b9cd, 0xebe6b238, 0x9fe3095e, 0x78bc8d4b)
    ensures Has(w, 60, 0xa43fcf15, 0x668b2ff8, 0xeeaba2cc, 0x12b1edeb)
  {
    FourWords(w, 56, 0x9f47bf94, 0xf0a64f5a, 0x3e246a79, 0x27333ba3, 0x0c4763f2,
              0xcc7617db, 0xb9e66c34, 0xa9993667, 0x84badedd, 0x1487472c, 0xb20f7a99,
              0xef57b9cd, 0xebe6b238, 0x9fe3095e, 0x78bc8d4b);
    FourWords(w, 60, 0x0c4763f2, 0x840abf27, 0x7a290d5d, 0x065c43da, 0xfb3e89cb,
              0xc21462bc, 0x1487472c, 0xb20f7a99, 0xef57b9cd, 0x9fe3095e, 0x78bc8d4b,
              0xa43fcf15, 0x668b2ff8, 0xeeaba2cc, 0x12b1edeb);
  }

  lemma Rounds0(w: seq<bv32>, after: nat -> State<bv32>)
    requires Proceeds(w, after)
    requires after(0) == State(0x6a09e667, 0xbb67ae85, 0x3c6ef372, 0xa54ff53a, 0x510e527f, 0x9b05688c, 0x1f83d9ab, 0x5be0cd19)
    requires Has(w, 0, 0x61626380, 0x00000000, 0x00000000, 0x00000000)
    requires Has(w, 4, 0x00000000, 0x00000000, 0x00000000, 0x00000000)
    ensures after(8) == State(0x85a07b5f, 0xe5030380, 0x2b4209f5, 0x04409a6a, 0x0c657a79, 0x9b27a401, 0x714260ad, 0x43ada245)
  {
    FourRounds(w, after, 0,
               0x6a09e667, 0xbb67ae85, 0x3c6ef372, 0xa54ff53a, 0x510e527f, 0x9b05688c, 0x1f83d9ab, 0x5be0cd19,
               0x428a2f98, 0x61626380, 0x5d6aebcd, 0xfa2a4622,
               0x71374491, 0x00000000, 0x5a6ad9ad, 0x78ce7989,
               0xb5c0fbcf, 0x00000000, 0xc8c347a7, 0xf92939eb,
               0xe9b5dba5, 0x00000000, 0xd550f666, 0x24e00850);
    FourRounds(w, after, 4,
               0xd550f666, 0xc8c347a7, 0x5a6ad9ad, 0x5d6aebcd, 0x24e00850, 0xf92939eb, 0x78ce7989, 0xfa2a4622,
               0x3956c25b, 0x00000000, 0x04409a6a, 0x43ada245,
               0x59f111f1, 0x00000000, 0x2b4209f5, 0x714260ad,
               0x923f82a4, 0x00000000, 0xe5030380, 0x9b27a401,
               0xab1c5ed5, 0x00000000, 0x85a07b5f, 0x0c657a79);
  }

  lemma Rounds8(w: seq<bv32>, after: nat -> State<bv32>)
    requires Proceeds(w, after)
    requires after(8) == State(0x85a07b5f, 0xe5030380, 0x2b4209f5, 0x04409a6a, 0x0c657a79, 0x9b27a401, 0x714260ad, 0x43ada245)
    requires Has(w, 8, 0x00000000, 0x00000000, 0x00000000, 0x00000000)
    requires Has(w, 12, 0x00000000, 0x00000000, 0x00000000, 0x00000018)
    ensures after(16) == State(0xb0fa238e, 0xc0645fde, 0xd932eb16, 0x87912990, 0x07590dcd, 0x0b92f20c, 0x745a48de, 0x1e578218)
  {
    FourRounds(w, after, 8,
               0x85a07b5f, 0xe5030380, 0x2b4209f5, 0x04409a6a, 0x0c657a79, 0x9b27a401, 0x714260ad, 0x43ada245,
               0xd807aa98, 0x00000000, 0x8e04ecb9, 0x32ca2d8c,
               0x12835b01, 0x00000000, 0x8c87346b, 0x1cc92596,
               0x243185be, 0x00000000, 0x4798a3f4, 0x436b23e8,
               0x550c7dc3, 0x00000000, 0xf71fc5a9, 0x816fd6e9);
    FourRounds(w, after, 12,
               0xf71fc5a9, 0x4798a3f4, 0x8c87346b, 0x8e04ecb9, 0x816fd6e9, 0x436b23e8, 0x1cc92596, 0x32ca2d8c,
               0x72be5d74, 0x00000000, 0x87912990, 0x1e578218,
               0x80deb1fe, 0x00000000, 0xd932eb16, 0x745a48de,
               0x9bdc06a7, 0x00000000, 0xc0645fde, 0x0b92f20c,
               0xc19bf174, 0x00000018, 0xb0fa238e, 0x07590dcd);
  }

  lemma Rounds16(w: seq<bv32>, after: nat -> State<bv32>)
    requires Proceeds(w, after)
    requires after(16) == State(0xb0fa238e, 0xc0645fde, 0xd932eb16, 0x87912990, 0x07590dcd, 0x0b92f20c, 0x745a48de, 0x1e578218)
    requires Has(w, 16, 0x61626380, 0x000f0000, 0x7da86405, 0x600003c6)
    requires Has(w, 20, 0x3e9d7b78, 0x0183fc00, 0x12dcbfdb, 0xe2e2c38e)
    ensures after(24) == State(0xc5d53d8d, 0xa7a3623f, 0xc2606d6d, 0x9dc68b63, 0xaa47c347, 0x49f5114a, 0xe1257970, 0x8ada8930)
  {
    FourRounds(w, after, 16,
               0xb0fa238e, 0xc0645fde, 0xd932eb16, 0x87912990, 0x07590dcd, 0x0b92f20c, 0x745a48de, 0x1e578218,
               0xe49b69c1, 0x61626380, 0x21da9a9b, 0x8034229c,
               0xefbe4786, 0x000f0000, 0xc2fbd9d1, 0x846ee454,
               0x0fc19dc6, 0x7da86405, 0xfe777bbf, 0xcc899961,
               0x240ca1cc, 0x600003c6, 0xe1f20c33, 0xb0638179);
    FourRounds(w, after, 20,
               0xe1f20c33, 0xfe777bbf, 0xc2fbd9d1, 0x21da9a9b, 0xb0638179, 0xcc899961, 0x846ee454, 0x8034229c,
               0x2de92c6f, 0x3e9d7b78, 0x9dc68b63, 0x8ada8930,
               0x4a7484aa, 0x0183fc00, 0xc2606d6d, 0xe1257970,
               0x5cb0a9dc, 0x12dcbfdb, 0xa7a3623f, 0x49f5114a,
               0x76f988da, 0xe2e2c38e, 0xc5d53d8d, 0xaa47c347);
  }

  lemma Rounds24(w: seq<bv32>, after: nat -> State<bv32>)
    requires Proceeds(w, after)
    requires after(24) == State(0xc5d53d8d, 0xa7a3623f, 0xc2606d6d, 0x9dc68b63, 0xaa47c347, 0x49f5114a, 0xe1257970, 0x8ada8930)
    requires Has(w, 24, 0xc8215c1a, 0xb73679a2, 0xe5bc3909, 0x32663c5b)
    requires Has(w, 28, 0x9d209d67, 0xec8726cb, 0x702138a4, 0xd3b7973b)
    ensures after(32) == State(0x73b33bf5, 0xea992a22, 0xa0060b30, 0x363482c9, 0xba591112, 0x0109ab3a, 0xade79437, 0x6112a3b7)
  {
    FourRounds(w, after, 24,
               0xc5d53d8d, 0xa7a3623f, 0xc2606d6d, 0x9dc68b63, 0xaa47c347, 0x49f5114a, 0xe1257970, 0x8ada8930,
               0x983e5152, 0xc8215c1a, 0x1c2c2838, 0x2823ef91,
               0xa831c66d, 0xb73679a2, 0xcde8037d, 0x14383d8e,
               0xb00327c8, 0xe5bc3909, 0xb62ec4bc, 0xc74c6516,
               0xbf597fc7, 0x32663c5b, 0x77d37528, 0xedffbff8);
    FourRounds(w, after, 28,
               0x77d37528, 0xb62ec4bc, 0xcde8037d, 0x1c2c2838, 0xedffbff8, 0xc74c6516, 0x14383d8e, 0x2823ef91,
               0xc6e00bf3, 0x9d209d67, 0x363482c9, 0x6112a3b7,
               0xd5a79147, 0xec8726cb, 0xa0060b30, 0xade79437,
               0x06ca6351, 0x702138a4, 0xea992a22, 0x0109ab3a,
               0x14292967, 0xd3b7973b, 0x73b33bf5, 0xba591112);
  }

  lemma Rounds32(w: seq<bv32>, after: nat -> State<bv32>)
    requires Proceeds(w, after)
    requires after(32) == State(0x73b33bf5, 0xea992a22, 0xa0060b30, 0x363482c9, 0xba591112, 0x0109ab3a, 0xade79437, 0x6112a3b7)
    requires Has(w, 32, 0x93f5997f, 0x3b68ba73, 0xaff4ffc1, 0xf10a5c62)
    requires Has(w, 36, 0x0a8b3996, 0x72af830a, 0x9409e33e, 0x24641522)
    ensures after(40) == State(0x79ea687a, 0x6dc57a8a, 0x34df1604, 0x41a65cb1, 0x1efbc0a0, 0xf0781bc8, 0xa507a53d, 0x0772a26b)
  {
    FourRounds(w, after, 32,
               0x73b33bf5, 0xea992a22, 0xa0060b30, 0x363482c9, 0xba591112, 0x0109ab3a, 0xade79437, 0x6112a3b7,
               0x27b70a85, 0x93f5997f, 0x98e12507, 0x9cd9f5f6,
               0x2e1b2138, 0x3b68ba73, 0xfe604df5, 0x59249dd3,
               0x4d2c6dfc, 0xaff4ffc1, 0xa9a7738c, 0x085f3833,
               0x53380d13, 0xf10a5c62, 0x65a0cfe4, 0xf4b002d6);
    FourRounds(w, after, 36,
               0x65a0cfe4, 0xa9a7738c, 0xfe604df5, 0x98e12507, 0xf4b002d6, 0x085f3833, 0x59249dd3, 0x9cd9f5f6,
               0x650a7354, 0x0a8b3996, 0x41a65cb1, 0x0772a26b,
               0x766a0abb, 0x72af830a, 0x34df1604, 0xa507a53d,
               0x81c2c92e, 0x9409e33e, 0x6dc57a8a, 0xf0781bc8,
               0x92722c85, 0x24641522, 0x79ea687a, 0x1efbc0a0);
  }

  lemma Rounds40(w: seq<bv32>, after: nat -> State<bv32>)
    requires Proceeds(w, after)
    requires after(40) == State(0x79ea687a, 0x6dc57a8a, 0x34df1604, 0x41a65cb1, 0x1efbc0a0, 0xf0781bc8, 0xa507a53d, 0x0772a26b)
    requires Has(w, 40, 0x9f47bf94, 0xf0a64f5a, 0x3e246a79, 0x27333ba3)
    requires Has(w, 44, 0x0c4763f2, 0x840abf27, 0x7a290d5d, 0x065c43da)
    ensures after(48) == State(0x4172328d, 0xa14c14b0, 0x72ab4b91, 0x26628815, 0xfecf0bc6, 0xd57b94a9, 0xb7755da1, 0xa80f11f0)
  {
    FourRounds(w, after, 40,
               0x79ea687a, 0x6dc57a8a, 0x34df1604, 0x41a65cb1, 0x1efbc0a0, 0xf0781bc8, 0xa507a53d, 0x0772a26b,
               0xa2bfe8a1, 0x9f47bf94, 0xd6670766, 0x26352d63,
               0xa81a664b, 0xf0a64f5a, 0xdf46652f, 0x838b2711,
               0xc24b8b70, 0x3e246a79, 0x17aa0dfe, 0xdecd4715,
               0xc76c51a3, 0x27333ba3, 0x9d4baf93, 0xfda24c2e);
    FourRounds(w, after, 44,
               0x9d4baf93, 0x17aa0dfe, 0xdf46652f, 0xd6670766, 0xfda24c2e, 0xdecd4715, 0x838b2711, 0x26352d63,
               0xd192e819, 0x0c4763f2, 0x26628815, 0xa80f11f0,
               0xd6990624, 0x840abf27, 0x72ab4b91, 0xb7755da1,
               0xf40e3585, 0x7a290d5d, 0xa14c14b0, 0xd57b94a9,
               0x106aa070, 0x065c43da, 0x4172328d, 0xfecf0bc6);
  }

  lemma Rounds48(w: seq<bv32>, after: nat -> State<bv32>)
    requires Proceeds(w, after)
    requires after(48) == State(0x4172328d, 0xa14c14b0, 0x72ab4b91, 0x26628815, 0xfecf0bc6, 0xd57b94a9, 0xb7755da1, 0xa80f11f0)
    requires Has(w, 48, 0xfb3e89cb, 0xcc7617db, 0xb9e66c34, 0xa9993667)
    requires Has(w, 52, 0x84badedd, 0xc21462bc, 0x1487472c, 0xb20f7a99)
    ensures after(56) == State(0x38cc9913, 0x3ec45cdb, 0xf5702fdb, 0x101fd28f, 0x54cb266b, 0xe50e1b4f, 0x9f4787c3, 0x529e7d00)
  {
    FourRounds(w, after, 48,
               0x4172328d, 0xa14c14b0, 0x72ab4b91, 0x26628815, 0xfecf0bc6, 0xd57b94a9, 0xb7755da1, 0xa80f11f0,
               0x19a4c116, 0xfb3e89cb, 0x05757ceb, 0xbd714038,
               0x1e376c08, 0xcc7617db, 0xf11bfaa8, 0x6e5c390c,
               0x2748774c, 0xb9e66c34, 0x7a0508a1, 0x52f1ccf7,
               0x34b0bcb5, 0xa9993667, 0x886e7a22, 0x49231c1e);
    FourRounds(w, after, 52,
               0x886e7a22, 0x7a0508a1, 0xf11bfaa8, 0x05757ceb, 0x49231c1e, 0x52f1ccf7, 0x6e5c390c, 0xbd714038,
               0x391c0cb3, 0x84badedd, 0x101fd28f, 0x529e7d00,
               0x4ed8aa4a, 0xc21462bc, 0xf5702fdb, 0x9f4787c3,
               0x5b9cca4f, 0x1487472c, 0x3ec45cdb, 0xe50e1b4f,
               0x682e6ff3, 0xb20f7a99, 0x38cc9913, 0x54cb266b);
  }

  lemma Rounds56(w: seq<bv32>, after: nat -> State<bv32>)
    requires Proceeds(w, after)
    requires after(56) == State(0x38cc9913, 0x3ec45cdb, 0xf5702fdb, 0x101fd28f, 0x54cb266b, 0xe50e1b4f, 0x9f4787c3, 0x529e7d00)
    requires Has(w, 56, 0xef57b9cd, 0xebe6b238, 0x9fe3095e, 0x78bc8d4b)
    requires Has(w, 60, 0xa43fcf15, 0x668b2ff8, 0xeeaba2cc, 0x12b1edeb)
    ensures after(64) == State(0x506e3058, 0xd39a2165, 0x04d24d6c, 0xb85e2ce9, 0x5ef50f24, 0xfb121210, 0x948d25b6, 0x961f4894)
  {
    FourRounds(w, after, 56,
               0x38cc9913, 0x3ec45cdb, 0xf5702fdb, 0x101fd28f, 0x54cb266b, 0xe50e1b4f, 0x9f4787c3, 0x529e7d00,
               0x748f82ee, 0xef57b9cd, 0xfcd1887b, 0x9b5e906c,
               0x78a5636f, 0xebe6b238, 0xc062d46f, 0x7e44008e,
               0x84c87814, 0x9fe3095e, 0xffb70472, 0x6d83bfc6,
               0x8cc70208, 0x78bc8d4b, 0xb6ae8fff, 0xb21bad3d);
    FourRounds(w, after, 60,
               0xb6ae8fff, 0xffb70472, 0xc062d46f, 0xfcd1887b, 0xb21bad3d, 0x6d83bfc6, 0x7e44008e, 0x9b5e906c,
               0x90befffa, 0xa43fcf15, 0xb85e2ce9, 0x961f4894,
               0xa4506ceb, 0x668b2ff8, 0x04d24d6c, 0x948d25b6,
               0xbef9a3f7, 0xeeaba2cc, 0xd39a2165, 0xfb121210,
               0xc67178f2, 0x12b1edeb, 0x506e3058, 0x5ef50f24);
  }

  /** From the block of "abc" to its sixty-fourth round. */
  lemma AllRounds(w: seq<bv32>, after: nat -> State<bv32>)
    requires Schedules(w) && Proceeds(w, after) && after(0) == INITIAL_STATE
    requires Has(w, 0, 0x61626380, 0x00000000, 0x00000000, 0x00000000)
    requires Has(w, 4, 0x00000000, 0x00000000, 0x00000000, 0x00000000)
    requires Has(w, 8, 0x00000000, 0x00000000, 0x00000000, 0x00000000)
    requires Has(w, 12, 0x00000000, 0x00000000, 0x00000000, 0x00000018)
    ensures after(64) == State(0x506e3058, 0xd39a2165, 0x04d24d6c, 0xb85e2ce9, 0x5ef50f24, 0xfb121210, 0x948d25b6, 0x961f4894)
  {
    Words16(w); Words24(w); Words32(w); Words40(w); Words48(w); Words56(w);
    Rounds0(w, after); Rounds8(w, after);
    Rounds16(w, after); Rounds24(w, after);
    Rounds32(w, after); Rounds40(w, after);
    Rounds48(w, after); Rounds56(w, after);
  }

  // ---------------------------------------------------------------------------------------
  // The digest
  // ---------------------------------------------------------------------------------------

  function RegistersOf(w: seq<bv32>): nat -> State<bv32> {
    (t: nat) => OPERATIONS.Rounds(INITIAL_STATE, if t <= |w| then w[..t] else w)
  }

  lemma MakesInUse(w16: bv32, w15: bv32, w7: bv32, w2: bv32, x: bv32)
    requires x == OPERATIONS.add(
      OPERATIONS.add(OPERATIONS.add(w16, OPERATIONS.smallSigma0(w15)), w7), OPERATIONS.smallSigma1(w2))
    ensures Makes(w16, w15, w7, w2, x)
  {
    OperationsInUse(w15, w15, w15, 0);
    OperationsInUse(w2, w2, w2, 0);
  }

  lemma {:induction false} WordIsMade(block: Block, w: seq<bv32>, t: nat)
    requires w == OPERATIONS.Schedule(block, |w|) && 16 <= t < |w|
    ensures MadeAt(w, t)
  {
    ScheduleRecurrence(OPERATIONS, block, |w|, t);
    MakesInUse(w[t - 16], w[t - 15], w[t - 7], w[t - 2], w[t]);
  }

  lemma {:induction false} WordsAreMade(block: Block, w: seq<bv32>)
    requires w == OPERATIONS.Schedule(block, |w|)
    ensures Schedules(w)
  {
    forall t: nat | 16 <= t < |w| ensures MadeAt(w, t) {
      WordIsMade(block, w, t);
    }
  }

  lemma RoundInUse(s: State<bv32>, t: nat, x: bv32, next: State<bv32>)
    requires next == OPERATIONS.Round(s, OPERATIONS.constant(t), x)
    ensures Enters(s.a, s.b, s.c, s.d, s.e, s.f, s.g, s.h, RoundConstant(t), x, next.a, next.e)
    ensures next == State(next.a, s.a, s.b, s.c, next.e, s.e, s.f, s.g)
  {
    OperationsInUse(s.a, s.b, s.c, t);
    OperationsInUse(s.e, s.f, s.g, t);
  }

  lemma {:induction false} ProceedsRegisters(w: seq<bv32>)
    requires |w| == 64
    ensures Proceeds(w, RegistersOf(w))
  {
    forall t: nat | t < 64
      ensures var s, next := RegistersOf(w)(t), RegistersOf(w)(t + 1);
        && Enters(s.a, s.b, s.c, s.d, s.e, s.f, s.g, s.h, RoundConstant(t), w[t], next.a, next.e)
        && next == State(next.a, s.a, s.b, s.c, next.e, s.e, s.f, s.g)
    {
      assert w[..t + 1][..t] == w[..t] && w[..t + 1][t] == w[t];
      RoundInUse(RegistersOf(w)(t), t, w[t], RegistersOf(w)(t + 1));
    }
  }

  lemma LoadInUse(a: Byte, b: Byte, c: Byte, d: Byte)
    ensures OPERATIONS.load(a, b, c, d) == Load(a, b, c, d)
  {
  }

  lemma {:induction false} LoadedWord(block: Block, n: nat, i: nat, a: Byte, b: Byte, c: Byte, d: Byte, x: bv32)
    requires i < 16 <= n && block[4 * i] == a && block[4 * i + 1] == b && block[4 * i + 2] == c && block[4 * i + 3] == d
    requires x == Load(a, b, c, d)
    ensures OPERATIONS.Schedule(block, n)[i] == x
  {
    LoadInUse(a, b, c, d);
    ScheduleRecurrence(OPERATIONS, block, n, i);
  }

  /** The first sixteen words are those of the padded block. */
  ghost predicate StartsWithAbc(w: seq<bv32>) {
    |w| >= 16 && w[0] == 0x61626380 && w[15] == 0x18 && forall i :: 1 <= i < 15 ==> w[i] == 0
  }

  lemma {:induction false} FirstWord(block: Block, n: nat)
    requires IsAbcBlock(block) && n >= 16
    ensures OPERATIONS.Schedule(block, n)[0] == 0x61626380
  {
    LoadedWord(block, n, 0, 97, 98, 99, 0x80, 0x61626380);
  }

  lemma {:induction false} LastWord(block: Block, n: nat)
    requires IsAbcBlock(block) && n >= 16
    ensures OPERATIONS.Schedule(block, n)[15] == 0x18
  {
    LoadedWord(block, n, 15, 0, 0, 0, 24, 0x18);
  }

  lemma {:induction false} OtherWord(block: Block, n: nat, i: nat)
    requires IsAbcBlock(block) && n >= 16 && 1 <= i < 15
    ensures OPERATIONS.Schedule(block, n)[i] == 0
  {
    LoadedWord(block, n, i, 0, 0, 0, 0, 0);
  }

  lemma {:induction false} AbcWords(block: Block, n: nat)
    requires IsAbcBlock(block) && n >= 16
    ensures StartsWithAbc(OPERATIONS.Schedule(block, n))
  {
    FirstWord(block, n);
    LastWord(block, n);
    forall i: nat | 1 <= i < 15 ensures OPERATIONS.Schedule(block, n)[i] == 0 {
      OtherWord(block, n, i);
    }
  }

  lemma {:induction false} AbcStart(w: seq<bv32>)
    requires |w| == 64
    ensures RegistersOf(w)(0) == INITIAL_STATE && RegistersOf(w)(64) == OPERATIONS.Rounds(INITIAL_STATE, w)
  {
    assert w[..0] == [] && w[..64] == w;
  }

  lemma AbcRounds(w: seq<bv32>)
    requires Schedules(w) && |w| == 64 && StartsWithAbc(w)
    ensures OPERATIONS.Rounds(INITIAL_STATE, w) == LAST_REGISTERS
  {
    ProceedsRegisters(w);
    AbcStart(w);
    AllRounds(w, RegistersOf(w));
  }

  lemma AbcSum()
    ensures OPERATIONS.AddState(INITIAL_STATE, LAST_REGISTERS)
         == PUBLISHED
  {
  }

  lemma AbcChain(p: Bytes)
    requires |p| == 64
    ensures Chain(OPERATIONS.Compress, INITIAL_STATE, p) == OPERATIONS.Compress(INITIAL_STATE, p)
  {
    assert p[..0] == [] && p[0..] == p;
  }

  lemma AbcCompress(block: Block, w: seq<bv32>)
    requires w == OPERATIONS.Schedule(block, 64) && OPERATIONS.Rounds(INITIAL_STATE, w) == LAST_REGISTERS
    ensures OPERATIONS.Compress(INITIAL_STATE, block) == PUBLISHED
  {
    AbcSum();
  }

  /** The digest of "abc", as published. */
  lemma PublishedDigest()
    ensures Digest(ABC) == HexState(PUBLISHED)
  {
    PaddedAbc();
    var w := OPERATIONS.Schedule(Pad(ABC), 64);
    AbcWords(Pad(ABC), 64);
    WordsAreMade(Pad(ABC), w);
    AbcRounds(w);
    AbcCompress(Pad(ABC), w);
    AbcChain(Pad(ABC));
  }
}
