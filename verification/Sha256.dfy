/**
 The one-shot SHA-256 of the contract manifest, on 32-bit machine words, against the padding and the
 recurrences of sections 5.1 and 6.2 of FIPS 180-4.
 */
module Sha256 {
  import opened Common

  /** One message block. */
  type Block = b: Bytes | |b| == 64 witness seq(64, _ => 0)

  datatype State<W> = State(a: W, b: W, c: W, d: W, e: W, f: W, g: W, h: W)

  // ---------------------------------------------------------------------------------------
  // Padding
  // ---------------------------------------------------------------------------------------

  const TWO_TO_61: nat := 0x2000_0000_0000_0000
  const TWO_TO_64: nat := 0x1_0000_0000_0000_0000

  /** The last `k` base-256 digits of `n`, most significant first. */
  function BigEndian(n: nat, k: nat): (r: Bytes)
    ensures |r| == k
  {
    if k == 0 then [] else BigEndian(n / 256, k - 1) + [n % 256]
  }

  /** How many zero bytes follow the marker: the fewest that leave room for the length. */
  function ZeroCount(n: nat): (z: nat)
    ensures z < 64 && (n + 1 + z) % 64 == 56 && (n + 1 + z + 8) % 64 == 0
  {
    (55 - n) % 64
  }

  function Zeros(k: nat): (r: Bytes)
    ensures |r| == k
  {
    if k == 0 then [] else Zeros(k - 1) + [0]
  }

  /** The length in bits, in a 64-bit word that wraps. */
  function BitLength(n: nat): (r: nat)
    ensures r < TWO_TO_64
  {
    (8 * n) % TWO_TO_64
  }

  function Pad(input: Bytes): (r: Bytes)
    ensures |r| == |input| + 1 + ZeroCount(|input|) + 8 && |r| % 64 == 0
  {
    input + [0x80] + Zeros(ZeroCount(|input|)) + BigEndian(BitLength(|input|), 8)
  }

  // ---------------------------------------------------------------------------------------
  // Compression, for any word operations
  // ---------------------------------------------------------------------------------------

  datatype Operations<!W> = Operations(
    load: (Byte, Byte, Byte, Byte) -> W,
    constant: int -> W,
    add: (W, W) -> W,
    smallSigma0: W -> W,
    smallSigma1: W -> W,
    bigSigma0: W -> W,
    bigSigma1: W -> W,
    choose: (W, W, W) -> W,
    majority: (W, W, W) -> W
  ) {
    function WordAt(block: Block, i: nat): W
      requires i < 16
    {
      load(block[4 * i], block[4 * i + 1], block[4 * i + 2], block[4 * i + 3])
    }

    /** The schedule word from those 16, 15, 7 and 2 places before it. */
    function ScheduleWord(w16: W, w15: W, w7: W, w2: W): W {
      add(add(add(w16, smallSigma0(w15)), w7), smallSigma1(w2))
    }

    /** The first `n` words of the message schedule. */
    function Schedule(block: Block, n: nat): (w: seq<W>)
      ensures |w| == n
    {
      if n == 0 then []
      else
        var w := Schedule(block, n - 1);
        w + [if n <= 16 then WordAt(block, n - 1) else ScheduleWord(w[n - 17], w[n - 16], w[n - 8], w[n - 3])]
    }

    function Temporary1(e: W, f: W, g: W, h: W, k: W, w: W): W {
      add(add(add(add(h, bigSigma1(e)), choose(e, f, g)), k), w)
    }

    function Temporary2(a: W, b: W, c: W): W {
      add(bigSigma0(a), majority(a, b, c))
    }

    function Round(s: State<W>, k: W, w: W): State<W> {
      var t1, t2 := Temporary1(s.e, s.f, s.g, s.h, k, w), Temporary2(s.a, s.b, s.c);
      State(add(t1, t2), s.a, s.b, s.c, add(s.d, t1), s.e, s.f, s.g)
    }

    /** The registers after one round for each word of `w`. */
    function Rounds(s: State<W>, w: seq<W>): State<W> {
      if w == [] then s else Round(Rounds(s, w[..|w| - 1]), constant(|w| - 1), w[|w| - 1])
    }

    function AddState(s: State<W>, t: State<W>): State<W> {
      State(
        add(s.a, t.a), add(s.b, t.b), add(s.c, t.c), add(s.d, t.d),
        add(s.e, t.e), add(s.f, t.f), add(s.g, t.g), add(s.h, t.h)
      )
    }

    function Compress(s: State<W>, block: Block): State<W> {
      AddState(s, Rounds(s, Schedule(block, 64)))
    }
  }

  // ---------------------------------------------------------------------------------------
  // The rounds as two sequences, without the shifting registers
  // ---------------------------------------------------------------------------------------

  /** The word that enters the first register in round `t`; before round 1, those of the start, backwards. */
  function Alpha<W>(ops: Operations<W>, s: State<W>, w: seq<W>, t: int): W
    requires -3 <= t <= |w|
    decreases t, 2
  {
    if t <= 0 then [s.a, s.b, s.c, s.d][-t] else ops.add(First(ops, s, w, t), Second(ops, s, w, t))
  }

  /** The word that enters the fifth register in round `t`. */
  function Epsilon<W>(ops: Operations<W>, s: State<W>, w: seq<W>, t: int): W
    requires -3 <= t <= |w|
    decreases t, 2
  {
    if t <= 0 then [s.e, s.f, s.g, s.h][-t] else ops.add(Alpha(ops, s, w, t - 4), First(ops, s, w, t))
  }

  /** T1 of round `t`: four words of the second sequence, a constant and a message word. */
  function First<W>(ops: Operations<W>, s: State<W>, w: seq<W>, t: int): W
    requires 1 <= t <= |w|
    decreases t, 1
  {
    var e1, e2, e3, e4 := Epsilon(ops, s, w, t - 1), Epsilon(ops, s, w, t - 2), Epsilon(ops, s, w, t - 3), Epsilon(ops, s, w, t - 4);
    ops.add(ops.add(ops.add(ops.add(e4, ops.bigSigma1(e1)), ops.choose(e1, e2, e3)), ops.constant(t - 1)), w[t - 1])
  }

  /** T2 of round `t`: three words of the first sequence. */
  function Second<W>(ops: Operations<W>, s: State<W>, w: seq<W>, t: int): W
    requires 1 <= t <= |w|
    decreases t, 1
  {
    var a1, a2, a3 := Alpha(ops, s, w, t - 1), Alpha(ops, s, w, t - 2), Alpha(ops, s, w, t - 3);
    ops.add(ops.bigSigma0(a1), ops.majority(a1, a2, a3))
  }

  /** The registers after round `t`: the last four words of each sequence. */
  function WordsAt<W>(ops: Operations<W>, s: State<W>, w: seq<W>, t: nat): State<W>
    requires t <= |w|
  {
    State(
      Alpha(ops, s, w, t), Alpha(ops, s, w, t - 1), Alpha(ops, s, w, t - 2), Alpha(ops, s, w, t - 3),
      Epsilon(ops, s, w, t), Epsilon(ops, s, w, t - 1), Epsilon(ops, s, w, t - 2), Epsilon(ops, s, w, t - 3))
  }

  lemma {:induction false} RoundShifts<W>(ops: Operations<W>, s: State<W>, w: seq<W>, t: nat)
    requires 0 < t <= |w|
    ensures ops.Round(WordsAt(ops, s, w, t - 1), ops.constant(t - 1), w[t - 1]) == WordsAt(ops, s, w, t)
  {
    assert Alpha(ops, s, w, t) == ops.add(First(ops, s, w, t), Second(ops, s, w, t));
    assert Epsilon(ops, s, w, t) == ops.add(Alpha(ops, s, w, t - 4), First(ops, s, w, t));
  }

  lemma {:induction false} RegistersAreTwoSequences<W>(ops: Operations<W>, s: State<W>, w: seq<W>, t: nat)
    requires t <= |w|
    ensures ops.Rounds(s, w[..t]) == WordsAt(ops, s, w, t)
  {
    if t > 0 {
      RegistersAreTwoSequences(ops, s, w, t - 1);
      RoundShifts(ops, s, w, t);
      assert w[..t][..t - 1] == w[..t - 1] && w[..t][t - 1] == w[t - 1];
    }
  }

  ghost predicate Commutes<W(!new)>(add: (W, W) -> W) {
    && (forall x, y :: add(x, y) == add(y, x))
    && (forall x, y, z :: add(add(x, y), z) == add(x, add(y, z)))
  }

  /** The two words that enter in one round differ by T2 and the word that leaves the first four registers. */
  lemma RoundBalance<W(!new)>(ops: Operations<W>, s: State<W>, w: seq<W>, t: int)
    requires 1 <= t <= |w| && Commutes(ops.add)
    ensures ops.add(Epsilon(ops, s, w, t), Second(ops, s, w, t)) == ops.add(Alpha(ops, s, w, t), Alpha(ops, s, w, t - 4))
  {
    var add, a, t1, t2 := ops.add, Alpha(ops, s, w, t - 4), First(ops, s, w, t), Second(ops, s, w, t);
    assert add(add(a, t1), t2) == add(a, add(t1, t2)) == add(add(t1, t2), a);
  }

  lemma {:induction false} RoundsAreTwoSequences<W>(ops: Operations<W>, s: State<W>, w: seq<W>)
    ensures ops.Rounds(s, w) == WordsAt(ops, s, w, |w|)
  {
    RegistersAreTwoSequences(ops, s, w, |w|);
    assert w[..|w|] == w;
  }

  /** The compression adds the last four words of each sequence to the chaining value. */
  lemma {:induction false} CompressionIsTwoSequences<W>(ops: Operations<W>, s: State<W>, block: Block, w: seq<W>, last: State<W>)
    requires w == ops.Schedule(block, 64) && last == WordsAt(ops, s, w, |w|)
    ensures ops.Compress(s, block) == ops.AddState(s, last)
  {
    RoundsAreTwoSequences(ops, s, w);
  }

  /** The chaining value after every whole block of `p`. */
  function Chain<S>(compress: (S, Block) -> S, start: S, p: Bytes): S
    requires |p| % 64 == 0
  {
    if p == [] then start else compress(Chain(compress, start, p[..|p| - 64]), p[|p| - 64..])
  }

  /** The schedule obeys the recurrence of section 6.2.2 of FIPS 180-4. */
  lemma {:induction false} ScheduleRecurrence<W>(ops: Operations<W>, block: Block, n: nat, t: nat)
    requires t < n
    ensures var w := ops.Schedule(block, n);
      w[t] ==
        if t < 16 then ops.load(block[4 * t], block[4 * t + 1], block[4 * t + 2], block[4 * t + 3])
        else ops.add(ops.add(ops.add(w[t - 16], ops.smallSigma0(w[t - 15])), w[t - 7]), ops.smallSigma1(w[t - 2]))
  {
    if t < n - 1 {
      ScheduleRecurrence(ops, block, n - 1, t);
      assert forall i :: 0 <= i < n - 1 ==> ops.Schedule(block, n)[i] == ops.Schedule(block, n - 1)[i];
    }
  }

  lemma NextWord<W>(ops: Operations<W>, block: Block, w: seq<W>, next: W)
    requires |w| >= 16 && w == ops.Schedule(block, |w|)
    requires next == ops.ScheduleWord(w[|w| - 16], w[|w| - 15], w[|w| - 7], w[|w| - 2])
    ensures w + [next] == ops.Schedule(block, |w| + 1)
  {
  }

  /** The first loop of the schedule: the words of the block. */
  method LoadWords<W>(ops: Operations<W>, block: Block, schedule: array<W>)
    requires schedule.Length == 64
    modifies schedule
    ensures schedule[..16] == ops.Schedule(block, 16)
  {
    for index := 0 to 16
      invariant schedule[..index] == ops.Schedule(block, index)
    {
      schedule[index] := ops.WordAt(block, index);
      assert schedule[..index + 1] == schedule[..index] + [schedule[index]];
    }
  }

  /** The second loop: each word from four before it. */
  method ExtendWords<W>(ops: Operations<W>, ghost block: Block, schedule: array<W>)
    requires schedule.Length == 64 && schedule[..16] == ops.Schedule(block, 16)
    modifies schedule
    ensures schedule[..] == ops.Schedule(block, 64)
  {
    for index := 16 to 64
      invariant schedule[..index] == ops.Schedule(block, index)
    {
      ghost var before := schedule[..index];
      var s0 := ops.smallSigma0(schedule[index - 15]);
      var s1 := ops.smallSigma1(schedule[index - 2]);
      var next := ops.add(ops.add(ops.add(schedule[index - 16], s0), schedule[index - 7]), s1);
      NextWord(ops, block, before, next);
      schedule[index] := next;
      assert schedule[..index + 1] == before + [next];
    }
    assert schedule[..] == schedule[..64];
  }

  method FillSchedule<W(0)>(ops: Operations<W>, block: Block) returns (schedule: array<W>)
    ensures fresh(schedule) && schedule[..] == ops.Schedule(block, 64)
  {
    schedule := new W[64];
    LoadWords(ops, block, schedule);
    ExtendWords(ops, block, schedule);
  }

  method CompressBlock<W(0)>(ops: Operations<W>, state: State<W>, block: Block) returns (r: State<W>)
    ensures r == ops.Compress(state, block)
  {
    var schedule := FillSchedule(ops, block);
    var a, b, c, d := state.a, state.b, state.c, state.d;
    var e, f, g, h := state.e, state.f, state.g, state.h;
    for index := 0 to 64
      invariant schedule[..] == ops.Schedule(block, 64)
      invariant State(a, b, c, d, e, f, g, h) == ops.Rounds(state, schedule[..index])
    {
      assert schedule[..index + 1][..index] == schedule[..index];
      var sum1 := ops.bigSigma1(e);
      var choose := ops.choose(e, f, g);
      var temporary1 := ops.add(ops.add(ops.add(ops.add(h, sum1), choose), ops.constant(index)), schedule[index]);
      var sum0 := ops.bigSigma0(a);
      var majority := ops.majority(a, b, c);
      var temporary2 := ops.add(sum0, majority);
      h := g;
      g := f;
      f := e;
      e := ops.add(d, temporary1);
      d := c;
      c := b;
      b := a;
      a := ops.add(temporary1, temporary2);
    }
    assert schedule[..64] == schedule[..];
    r := State(
      ops.add(state.a, a), ops.add(state.b, b), ops.add(state.c, c), ops.add(state.d, d),
      ops.add(state.e, e), ops.add(state.f, f), ops.add(state.g, g), ops.add(state.h, h)
    );
  }

  function BlockAt(p: Bytes, n: nat): Block
    requires 64 * (n + 1) <= |p|
  {
    p[64 * n..64 * (n + 1)]
  }

  /** The chaining value after the first `n` blocks. */
  function ChainTo<S>(compress: (S, Block) -> S, start: S, p: Bytes, n: nat): S
    requires 64 * n <= |p|
  {
    Chain(compress, start, p[..64 * n])
  }

  lemma {:induction false} ChainStep<S>(compress: (S, Block) -> S, start: S, p: Bytes, n: nat)
    requires 64 * (n + 1) <= |p|
    ensures ChainTo(compress, start, p, n + 1) == compress(ChainTo(compress, start, p, n), BlockAt(p, n))
  {
    assert p[..64 * (n + 1)][..64 * n] == p[..64 * n];
    assert p[..64 * (n + 1)][64 * n..] == p[64 * n..64 * (n + 1)];
  }

  lemma {:induction false} ChainEnds<S>(compress: (S, Block) -> S, start: S, p: Bytes, blocks: nat)
    requires 64 * blocks == |p|
    ensures ChainTo(compress, start, p, 0) == start && ChainTo(compress, start, p, blocks) == Chain(compress, start, p)
  {
    WholeSlice(p, 64 * blocks);
  }

  /** The number of the last of the blocks that make up `n` bytes. */
  function LastBlock(n: nat): (k: nat)
    requires n % 64 == 0 && n > 0
    ensures 64 * (k + 1) == n
  {
    n / 64 - 1
  }

  lemma BlockFits(n: nat, k: nat)
    requires n % 64 == 0 && k < n / 64
    ensures 64 * (k + 1) <= n
  {
  }

  method HashBlocks<W(0)>(ops: Operations<W>, start: State<W>, padded: Bytes) returns (state: State<W>)
    requires |padded| % 64 == 0
    ensures state == Chain(ops.Compress, start, padded)
  {
    state := start;
    var blocks := |padded| / 64;
    ChainEnds(ops.Compress, start, padded, blocks);
    for n := 0 to blocks
      invariant state == ChainTo(ops.Compress, start, padded, n)
    {
      BlockFits(|padded|, n);
      ChainStep(ops.Compress, start, padded, n);
      state := CompressBlock(ops, state, BlockAt(padded, n));
    }
  }

  // ---------------------------------------------------------------------------------------
  // The 32-bit operations, and the digest in hexadecimal
  // ---------------------------------------------------------------------------------------

  const INITIAL_STATE: State<bv32> := State(
    0x6a09e667, 0xbb67ae85, 0x3c6ef372, 0xa54ff53a,
    0x510e527f, 0x9b05688c, 0x1f83d9ab, 0x5be0cd19
  )

  /** The round constants, in rows of eight. */
  const ROUND_CONSTANTS: seq<seq<bv32>> := [
    [0x428a2f98, 0x71374491, 0xb5c0fbcf, 0xe9b5dba5, 0x3956c25b, 0x59f111f1, 0x923f82a4, 0xab1c5ed5],
    [0xd807aa98, 0x12835b01, 0x243185be, 0x550c7dc3, 0x72be5d74, 0x80deb1fe, 0x9bdc06a7, 0xc19bf174],
    [0xe49b69c1, 0xefbe4786, 0x0fc19dc6, 0x240ca1cc, 0x2de92c6f, 0x4a7484aa, 0x5cb0a9dc, 0x76f988da],
    [0x983e5152, 0xa831c66d, 0xb00327c8, 0xbf597fc7, 0xc6e00bf3, 0xd5a79147, 0x06ca6351, 0x14292967],
    [0x27b70a85, 0x2e1b2138, 0x4d2c6dfc, 0x53380d13, 0x650a7354, 0x766a0abb, 0x81c2c92e, 0x92722c85],
    [0xa2bfe8a1, 0xa81a664b, 0xc24b8b70, 0xc76c51a3, 0xd192e819, 0xd6990624, 0xf40e3585, 0x106aa070],
    [0x19a4c116, 0x1e376c08, 0x2748774c, 0x34b0bcb5, 0x391c0cb3, 0x4ed8aa4a, 0x5b9cca4f, 0x682e6ff3],
    [0x748f82ee, 0x78a5636f, 0x84c87814, 0x8cc70208, 0x90befffa, 0xa4506ceb, 0xbef9a3f7, 0xc67178f2]
  ]

  lemma RowsOfEight(r: nat)
    requires r < 8
    ensures |ROUND_CONSTANTS| == 8 && |ROUND_CONSTANTS[r]| == 8
  {
  }

  function RoundConstant(i: int): bv32 {
    if 0 <= i < 64 then
      RowsOfEight(i / 8);
      ROUND_CONSTANTS[i / 8][i % 8]
    else 0
  }

  /** Four bytes as a word, most significant first. */
  function Load(a: Byte, b: Byte, c: Byte, d: Byte): bv32 {
    ((a as bv32) << 24) | ((b as bv32) << 16) | ((c as bv32) << 8) | (d as bv32)
  }

  function Add32(x: bv32, y: bv32): bv32 {
    x + y
  }

  function SmallSigma0(x: bv32): bv32 {
    x.RotateRight(7) ^ x.RotateRight(18) ^ (x >> 3)
  }

  function SmallSigma1(x: bv32): bv32 {
    x.RotateRight(17) ^ x.RotateRight(19) ^ (x >> 10)
  }

  function BigSigma0(x: bv32): bv32 {
    x.RotateRight(2) ^ x.RotateRight(13) ^ x.RotateRight(22)
  }

  function BigSigma1(x: bv32): bv32 {
    x.RotateRight(6) ^ x.RotateRight(11) ^ x.RotateRight(25)
  }

  function Choose(x: bv32, y: bv32, z: bv32): bv32 {
    (x & y) ^ (!x & z)
  }

  function Majority(x: bv32, y: bv32, z: bv32): bv32 {
    (x & y) ^ (x & z) ^ (y & z)
  }

  const OPERATIONS: Operations<bv32> := Operations(
    (a: Byte, b: Byte, c: Byte, d: Byte) => Load(a, b, c, d),
    (i: int) => RoundConstant(i),
    (x: bv32, y: bv32) => Add32(x, y),
    (x: bv32) => SmallSigma0(x),
    (x: bv32) => SmallSigma1(x),
    (x: bv32) => BigSigma0(x),
    (x: bv32) => BigSigma1(x),
    (x: bv32, y: bv32, z: bv32) => Choose(x, y, z),
    (x: bv32, y: bv32, z: bv32) => Majority(x, y, z)
  )

  function HexDigit(n: nat): (c: char)
    requires n < 16
    ensures '0' <= c <= '9' || 'a' <= c <= 'f'
  {
    if n < 10 then '0' + n as char else 'a' + (n - 10) as char
  }

  /** The last `k` hexadecimal digits of `n`. */
  function Hex(n: nat, k: nat): (r: string)
    ensures |r| == k
    ensures forall i :: 0 <= i < |r| ==> '0' <= r[i] <= '9' || 'a' <= r[i] <= 'f'
  {
    if k == 0 then [] else Hex(n / 16, k - 1) + [HexDigit(n % 16)]
  }

  function HexWords(words: seq<bv32>): (r: string)
    ensures |r| == 8 * |words|
    ensures forall i :: 0 <= i < |r| ==> '0' <= r[i] <= '9' || 'a' <= r[i] <= 'f'
  {
    if words == [] then [] else HexWord(words[0]) + HexWords(words[1..])
  }

  function HexWord(w: bv32): (r: string)
    ensures |r| == 8
  {
    Hex(w as nat, 8)
  }

  function HexState(s: State<bv32>): (r: string)
    ensures |r| == 64
    ensures forall i :: 0 <= i < |r| ==> '0' <= r[i] <= '9' || 'a' <= r[i] <= 'f'
  {
    HexWords([s.a, s.b, s.c, s.d, s.e, s.f, s.g, s.h])
  }

  function Digest(input: Bytes): string {
    HexState(Chain(OPERATIONS.Compress, INITIAL_STATE, Pad(input)))
  }

  lemma LastZero(n: nat, z: nat)
    requires z <= ZeroCount(n)
    ensures (n + 1 + z) % 64 == 56 <==> z == ZeroCount(n)
  {
  }

  lemma OneMoreZero(front: Bytes, z: nat)
    ensures front + Zeros(z) + [0] == front + Zeros(z + 1)
  {
  }

  method Padded(input: Bytes) returns (padded: Bytes)
    ensures padded == Pad(input)
  {
    padded := input + [0x80];
    ghost var front, zeros := padded, 0;
    LastZero(|input|, 0);
    while |padded| % 64 != 56
      invariant zeros <= ZeroCount(|input|)
      invariant padded == front + Zeros(zeros)
      decreases ZeroCount(|input|) - zeros
    {
      LastZero(|input|, zeros);
      OneMoreZero(front, zeros);
      padded := padded + [0];
      zeros := zeros + 1;
    }
    LastZero(|input|, zeros);
    padded := padded + BigEndian(BitLength(|input|), 8);
  }

  method DigestHex(input: Bytes) returns (r: string)
    ensures r == Digest(input)
  {
    var padded := Padded(input);
    var state := HashBlocks(OPERATIONS, INITIAL_STATE, padded);
    r := HexState(state);
  }

  // ---------------------------------------------------------------------------------------
  // What equal digests mean
  // ---------------------------------------------------------------------------------------

  function Power(base: nat, k: nat): nat {
    if k == 0 then 1 else base * Power(base, k - 1)
  }

  lemma {:induction false} BigEndianIsInjective(n: nat, m: nat, k: nat)
    requires n < Power(256, k) && m < Power(256, k)
    requires BigEndian(n, k) == BigEndian(m, k)
    ensures n == m
  {
    if k > 0 {
      var p, q := BigEndian(n, k), BigEndian(m, k);
      assert p[..k - 1] == BigEndian(n / 256, k - 1) && q[..k - 1] == BigEndian(m / 256, k - 1);
      assert p[k - 1] == n % 256 && q[k - 1] == m % 256;
      BigEndianIsInjective(n / 256, m / 256, k - 1);
    }
  }

  lemma BitLengthIsExact(n: nat, m: nat)
    ensures BitLength(n) == BitLength(m) <==> n % TWO_TO_61 == m % TWO_TO_61
  {
    assert 8 * TWO_TO_61 == TWO_TO_64;
    BitLengthIsScaled(n);
    BitLengthIsScaled(m);
  }

  lemma BitLengthIsScaled(n: nat)
    ensures BitLength(n) == 8 * (n % TWO_TO_61)
  {
    var q, r := n / TWO_TO_61, n % TWO_TO_61;
    assert 8 * n == TWO_TO_64 * q + 8 * r;
  }

  /** The field at the end of the padding tells the length modulo 2^61. */
  lemma LengthFieldTellsLength(a: Bytes, b: Bytes)
    requires Pad(a)[|Pad(a)| - 8..] == Pad(b)[|Pad(b)| - 8..]
    ensures |a| % TWO_TO_61 == |b| % TWO_TO_61
  {
    assert Pad(a)[|Pad(a)| - 8..] == BigEndian(BitLength(|a|), 8);
    assert Pad(b)[|Pad(b)| - 8..] == BigEndian(BitLength(|b|), 8);
    assert Power(256, 8) == TWO_TO_64;
    BigEndianIsInjective(BitLength(|a|), BitLength(|b|), 8);
    BitLengthIsExact(|a|, |b|);
  }

  /** No two inputs share a padded form, of whatever lengths. */
  lemma PaddingIsInjective(a: Bytes, b: Bytes)
    requires Pad(a) == Pad(b)
    ensures a == b
  {
    LengthFieldTellsLength(a, b);
    NearLengthsDiffer(|a|, |b|);
    assert a == Pad(a)[..|a|] && b == Pad(b)[..|b|];
  }

  lemma NearLengthsDiffer(n: nat, m: nat)
    requires n % TWO_TO_61 == m % TWO_TO_61 && -64 < n - m < 64
    ensures n == m
  {
    var k, l := n / TWO_TO_61, m / TWO_TO_61;
    assert n - m == TWO_TO_61 * (k - l);
  }

  lemma {:induction false} HexIsInjective(n: nat, m: nat, k: nat)
    requires n < Power(16, k) && m < Power(16, k) && Hex(n, k) == Hex(m, k)
    ensures n == m
  {
    if k > 0 {
      var p, q := Hex(n, k), Hex(m, k);
      assert p[..k - 1] == Hex(n / 16, k - 1) && q[..k - 1] == Hex(m / 16, k - 1);
      assert p[k - 1] == HexDigit(n % 16) && q[k - 1] == HexDigit(m % 16);
      HexIsInjective(n / 16, m / 16, k - 1);
    }
  }

  lemma WordFromNat(v: bv32)
    ensures v == (v as nat) as bv32
  {
  }

  lemma EightDigitsAreEnough(n: nat, m: nat)
    requires n < 0x1_0000_0000 && m < 0x1_0000_0000 && Hex(n, 8) == Hex(m, 8)
    ensures n == m
  {
    assert Power(16, 8) == 0x1_0000_0000;
    HexIsInjective(n, m, 8);
  }

  lemma HexWordIsInjective(v: bv32, w: bv32)
    requires HexWord(v) == HexWord(w)
    ensures v == w
  {
    EightDigitsAreEnough(v as nat, w as nat);
    WordFromNat(v);
    WordFromNat(w);
  }

  lemma {:induction false} HexWordsAreInjective(v: seq<bv32>, w: seq<bv32>)
    requires |v| == |w| && HexWords(v) == HexWords(w)
    ensures v == w
  {
    if v != [] {
      assert HexWord(v[0]) == HexWords(v)[..8] && HexWord(w[0]) == HexWords(w)[..8];
      assert HexWords(v[1..]) == HexWords(v)[8..] && HexWords(w[1..]) == HexWords(w)[8..];
      HexWordIsInjective(v[0], w[0]);
      HexWordsAreInjective(v[1..], w[1..]);
      assert v == [v[0]] + v[1..] && w == [w[0]] + w[1..];
    }
  }

  /** The 64 digits lose nothing of the final state. */
  lemma HexStateIsInjective(s: State<bv32>, t: State<bv32>)
    requires HexState(s) == HexState(t)
    ensures s == t
  {
    var v, w := [s.a, s.b, s.c, s.d, s.e, s.f, s.g, s.h], [t.a, t.b, t.c, t.d, t.e, t.f, t.g, t.h];
    HexWordsAreInjective(v, w);
    assert v[0] == w[0] && v[1] == w[1] && v[2] == w[2] && v[3] == w[3];
    assert v[4] == w[4] && v[5] == w[5] && v[6] == w[6] && v[7] == w[7];
  }

  /** Two different inputs of a compression function with one output. */
  ghost predicate Collision<S>(compress: (S, Block) -> S, s: S, x: Block, t: S, y: Block) {
    (s != t || x != y) && compress(s, x) == compress(t, y)
  }

  /** The chains of `p` and `q` collide where `p`'s block `m` and `q`'s block `n` are compressed. */
  ghost predicate CollisionAt<S>(compress: (S, Block) -> S, start: S, p: Bytes, q: Bytes, m: nat, n: nat) {
    && 64 * (m + 1) <= |p| && 64 * (n + 1) <= |q|
    && Collision(compress, Chain(compress, start, p[..64 * m]), p[64 * m..64 * (m + 1)],
                 Chain(compress, start, q[..64 * n]), q[64 * n..64 * (n + 1)])
  }

  /** The first `k` blocks of `q`, one at least, lead back to the start, and `p` is what follows them. */
  ghost predicate Returns<S>(compress: (S, Block) -> S, start: S, p: Bytes, q: Bytes, k: nat) {
    0 < k && 64 * k <= |q| && Chain(compress, start, q[..64 * k]) == start && p == q[64 * k..]
  }

  /** Chains that meet although their last blocks, or the states before these, differ collide there. */
  lemma {:induction false} CollideAtEnd<S>(compress: (S, Block) -> S, start: S, p: Bytes, q: Bytes, m: nat, n: nat)
    requires 64 * (m + 1) == |p| && 64 * (n + 1) == |q|
    requires Chain(compress, start, p) == Chain(compress, start, q)
    requires !SameEnd(compress, start, p, q, m, n)
    ensures CollisionAt(compress, start, p, q, m, n)
  {
    assert p[64 * m..64 * (m + 1)] == p[64 * m..] && q[64 * n..64 * (n + 1)] == q[64 * n..];
  }

  lemma CollisionStays<S>(compress: (S, Block) -> S, start: S, p: Bytes, q: Bytes, i: nat, j: nat, m: nat, n: nat)
    requires i <= |p| && j <= |q| && CollisionAt(compress, start, p[..i], q[..j], m, n)
    ensures CollisionAt(compress, start, p, q, m, n)
  {
    assert p[..i][..64 * m] == p[..64 * m] && p[..i][64 * m..64 * (m + 1)] == p[64 * m..64 * (m + 1)];
    assert q[..j][..64 * n] == q[..64 * n] && q[..j][64 * n..64 * (n + 1)] == q[64 * n..64 * (n + 1)];
  }

  lemma ReturnStays<S>(compress: (S, Block) -> S, start: S, p: Bytes, q: Bytes, i: nat, j: nat, k: nat)
    requires i <= |p| && j <= |q| && p[i..] == q[j..] && Returns(compress, start, p[..i], q[..j], k)
    ensures Returns(compress, start, p, q, k)
  {
    assert q[..j][..64 * k] == q[..64 * k];
    assert p == p[..i] + p[i..] && q[64 * k..] == q[..j][64 * k..] + q[j..];
  }

  /** How two chains came to meet. */
  ghost predicate Meeting<S>(compress: (S, Block) -> S, start: S, p: Bytes, q: Bytes, m: nat, n: nat) {
    || CollisionAt(compress, start, p, q, m, n)
    || Returns(compress, start, p, q, n)
    || Returns(compress, start, q, p, m)
  }

  lemma MeetingStays<S>(compress: (S, Block) -> S, start: S, p: Bytes, q: Bytes, i: nat, j: nat, m: nat, n: nat)
    requires i <= |p| && j <= |q| && p[i..] == q[j..] && Meeting(compress, start, p[..i], q[..j], m, n)
    ensures Meeting(compress, start, p, q, m, n)
  {
    if CollisionAt(compress, start, p[..i], q[..j], m, n) {
      CollisionStays(compress, start, p, q, i, j, m, n);
    } else if Returns(compress, start, p[..i], q[..j], n) {
      ReturnStays(compress, start, p, q, i, j, n);
    } else {
      ReturnStays(compress, start, q, p, j, i, m);
    }
  }

  /** A chain that ends where it began. */
  lemma {:induction false} EmptyChainMeets<S>(compress: (S, Block) -> S, start: S, q: Bytes) returns (k: nat)
    requires |q| % 64 == 0 && q != [] && Chain(compress, start, q) == start
    ensures Returns(compress, start, [], q, k)
  {
    k := |q| / 64;
    WholeSlice(q, 64 * k);
  }

  lemma WholeSlice(q: Bytes, n: nat)
    requires n == |q|
    ensures q[..n] == q && q[n..] == []
  {
  }

  /**
   Two different block sequences whose chains meet, for any compression function: at blocks `m` and `n`
   the two chains collide, or the longer one passed through the start and then repeated the shorter one.
   */
  lemma {:induction false} MeetingChainsCollide<S>(compress: (S, Block) -> S, start: S, p: Bytes, q: Bytes)
    returns (m: nat, n: nat)
    requires |p| % 64 == 0 && |q| % 64 == 0 && p != q && Chain(compress, start, p) == Chain(compress, start, q)
    ensures Meeting(compress, start, p, q, m, n)
    decreases |p|, 2
  {
    m, n := 0, 0;
    if p == [] {
      n := EmptyChainMeets(compress, start, q);
    } else if q == [] {
      m := EmptyChainMeets(compress, start, p);
    } else {
      m, n := MeetingAtEnd(compress, start, p, q, LastBlock(|p|), LastBlock(|q|));
    }
  }

  lemma {:induction false} MeetingAtEnd<S>(compress: (S, Block) -> S, start: S, p: Bytes, q: Bytes, i: nat, j: nat)
    returns (m: nat, n: nat)
    requires 64 * (i + 1) == |p| && 64 * (j + 1) == |q| && p != q && Chain(compress, start, p) == Chain(compress, start, q)
    ensures Meeting(compress, start, p, q, m, n)
    decreases |p|, 1
  {
    if !SameEnd(compress, start, p, q, i, j) {
      m, n := i, j;
      CollideAtEnd(compress, start, p, q, m, n);
    } else {
      m, n := MeetingBeforeLast(compress, start, p, q, i, j);
    }
  }

  /** The last blocks are equal, and so are the states before them. */
  ghost predicate SameEnd<S>(compress: (S, Block) -> S, start: S, p: Bytes, q: Bytes, i: nat, j: nat)
    requires 64 * i <= |p| && 64 * j <= |q|
  {
    p[64 * i..] == q[64 * j..] && ChainTo(compress, start, p, i) == ChainTo(compress, start, q, j)
  }

  /** If the last blocks are equal and so are the states before them, the chains met before. */
  lemma {:induction false} MeetingBeforeLast<S>(compress: (S, Block) -> S, start: S, p: Bytes, q: Bytes, i: nat, j: nat)
    returns (m: nat, n: nat)
    requires p != q && 64 * i < |p| && 64 * j < |q| && SameEnd(compress, start, p, q, i, j)
    ensures Meeting(compress, start, p, q, m, n)
    decreases |p|, 0
  {
    PrefixesDiffer(p, q, 64 * i, 64 * j);
    m, n := MeetingChainsCollide(compress, start, p[..64 * i], q[..64 * j]);
    MeetingStays(compress, start, p, q, 64 * i, 64 * j, m, n);
  }

  lemma PrefixesDiffer(p: Bytes, q: Bytes, i: nat, j: nat)
    requires p != q && i <= |p| && j <= |q| && p[i..] == q[j..]
    ensures p[..i] != q[..j]
  {
    assert p == p[..i] + p[i..] && q == q[..j] + q[j..];
  }

  /** The wrapping length field cannot tell these two lengths apart. */
  predicate LengthsAlias(n: nat, m: nat) {
    n != m && n % TWO_TO_61 == m % TWO_TO_61
  }

  lemma ReturnNeedsAlias(a: Bytes, b: Bytes, k: nat)
    requires 0 < k && 64 * k <= |Pad(b)| && Pad(a) == Pad(b)[64 * k..]
    ensures LengthsAlias(|a|, |b|)
  {
    var p, q := Pad(a), Pad(b);
    assert p[|p| - 8..] == q[|q| - 8..];
    LengthFieldTellsLength(a, b);
    assert |q| == |p| + 64 * k;
  }

  /**
   Different inputs whose padded chains meet, for any compression function: the chains collide at blocks
   `m` and `n`. The one other way needs lengths a multiple of 2^61 bytes apart, and a chain that came back
   to its start and then repeated the other one.
   */
  lemma ChainsOfPaddedInputsCollide<S>(compress: (S, Block) -> S, start: S, a: Bytes, b: Bytes)
    returns (m: nat, n: nat)
    requires a != b && Chain(compress, start, Pad(a)) == Chain(compress, start, Pad(b))
    ensures
      || CollisionAt(compress, start, Pad(a), Pad(b), m, n)
      || (LengthsAlias(|a|, |b|)
          && (Returns(compress, start, Pad(a), Pad(b), n) || Returns(compress, start, Pad(b), Pad(a), m)))
  {
    if Pad(a) == Pad(b) {
      PaddingIsInjective(a, b);
    }
    m, n := MeetingChainsCollide(compress, start, Pad(a), Pad(b));
    if Returns(compress, start, Pad(a), Pad(b), n) {
      ReturnNeedsAlias(a, b, n);
    } else if Returns(compress, start, Pad(b), Pad(a), m) {
      ReturnNeedsAlias(b, a, m);
    }
  }

  /** What one digest of two different inputs exposes, at blocks `m` and `n` of their padded forms. */
  ghost predicate Exposes(a: Bytes, b: Bytes, m: nat, n: nat) {
    || CollisionAt(OPERATIONS.Compress, INITIAL_STATE, Pad(a), Pad(b), m, n)
    || (LengthsAlias(|a|, |b|)
        && (|| Returns(OPERATIONS.Compress, INITIAL_STATE, Pad(a), Pad(b), n)
            || Returns(OPERATIONS.Compress, INITIAL_STATE, Pad(b), Pad(a), m)))
  }

  /** Two inputs with one digest make the SHA-256 compression function collide on their own two chains. */
  lemma DigestCollisionsComeFromCompression(a: Bytes, b: Bytes) returns (m: nat, n: nat)
    requires a != b && Digest(a) == Digest(b)
    ensures Exposes(a, b, m, n)
  {
    HexStateIsInjective(
      Chain(OPERATIONS.Compress, INITIAL_STATE, Pad(a)), Chain(OPERATIONS.Compress, INITIAL_STATE, Pad(b)));
    m, n := ChainsOfPaddedInputsCollide(OPERATIONS.Compress, INITIAL_STATE, a, b);
  }
}
