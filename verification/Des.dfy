/** The block cipher of lualib-src/lua-crypt.c (FIPS 46-3), its two paddings (ISO 7816-4; section 6.3 of
    RFC 5652), and encoding and decoding of texts of any length. */
module Des {

  datatype Result<T> = Ok(value: T) | Err(error: string)

  // The substitution boxes.

  const SB1: seq<bv32> := [
    0x0101_0400, 0x0000_0000, 0x0001_0000, 0x0101_0404, 0x0101_0004, 0x0001_0404, 0x0000_0004, 0x0001_0000,
    0x0000_0400, 0x0101_0400, 0x0101_0404, 0x0000_0400, 0x0100_0404, 0x0101_0004, 0x0100_0000, 0x0000_0004
  ] + [
    0x0000_0404, 0x0100_0400, 0x0100_0400, 0x0001_0400, 0x0001_0400, 0x0101_0000, 0x0101_0000, 0x0100_0404,
    0x0001_0004, 0x0100_0004, 0x0100_0004, 0x0001_0004, 0x0000_0000, 0x0000_0404, 0x0001_0404, 0x0100_0000
  ] + [
    0x0001_0000, 0x0101_0404, 0x0000_0004, 0x0101_0000, 0x0101_0400, 0x0100_0000, 0x0100_0000, 0x0000_0400,
    0x0101_0004, 0x0001_0000, 0x0001_0400, 0x0100_0004, 0x0000_0400, 0x0000_0004, 0x0100_0404, 0x0001_0404
  ] + [
    0x0101_0404, 0x0001_0004, 0x0101_0000, 0x0100_0404, 0x0100_0004, 0x0000_0404, 0x0001_0404, 0x0101_0400,
    0x0000_0404, 0x0100_0400, 0x0100_0400, 0x0000_0000, 0x0001_0004, 0x0001_0400, 0x0000_0000, 0x0101_0004
  ]

  const SB2: seq<bv32> := [
    0x8010_8020, 0x8000_8000, 0x0000_8000, 0x0010_8020, 0x0010_0000, 0x0000_0020, 0x8010_0020, 0x8000_8020,
    0x8000_0020, 0x8010_8020, 0x8010_8000, 0x8000_0000, 0x8000_8000, 0x0010_0000, 0x0000_0020, 0x8010_0020
  ] + [
    0x0010_8000, 0x0010_0020, 0x8000_8020, 0x0000_0000, 0x8000_0000, 0x0000_8000, 0x0010_8020, 0x8010_0000,
    0x0010_0020, 0x8000_0020, 0x0000_0000, 0x0010_8000, 0x0000_8020, 0x8010_8000, 0x8010_0000, 0x0000_8020
  ] + [
    0x0000_0000, 0x0010_8020, 0x8010_0020, 0x0010_0000, 0x8000_8020, 0x8010_0000, 0x8010_8000, 0x0000_8000,
    0x8010_0000, 0x8000_8000, 0x0000_0020, 0x8010_8020, 0x0010_8020, 0x0000_0020, 0x0000_8000, 0x8000_0000
  ] + [
    0x0000_8020, 0x8010_8000, 0x0010_0000, 0x8000_0020, 0x0010_0020, 0x8000_8020, 0x8000_0020, 0x0010_0020,
    0x0010_8000, 0x0000_0000, 0x8000_8000, 0x0000_8020, 0x8000_0000, 0x8010_0020, 0x8010_8020, 0x0010_8000
  ]

  const SB3: seq<bv32> := [
    0x0000_0208, 0x0802_0200, 0x0000_0000, 0x0802_0008, 0x0800_0200, 0x0000_0000, 0x0002_0208, 0x0800_0200,
    0x0002_0008, 0x0800_0008, 0x0800_0008, 0x0002_0000, 0x0802_0208, 0x0002_0008, 0x0802_0000, 0x0000_0208
  ] + [
    0x0800_0000, 0x0000_0008, 0x0802_0200, 0x0000_0200, 0x0002_0200, 0x0802_0000, 0x0802_0008, 0x0002_0208,
    0x0800_0208, 0x0002_0200, 0x0002_0000, 0x0800_0208, 0x0000_0008, 0x0802_0208, 0x0000_0200, 0x0800_0000
  ] + [
    0x0802_0200, 0x0800_0000, 0x0002_0008, 0x0000_0208, 0x0002_0000, 0x0802_0200, 0x0800_0200, 0x0000_0000,
    0x0000_0200, 0x0002_0008, 0x0802_0208, 0x0800_0200, 0x0800_0008, 0x0000_0200, 0x0000_0000, 0x0802_0008
  ] + [
    0x0800_0208, 0x0002_0000, 0x0800_0000, 0x0802_0208, 0x0000_0008, 0x0002_0208, 0x0002_0200, 0x0800_0008,
    0x0802_0000, 0x0800_0208, 0x0000_0208, 0x0802_0000, 0x0002_0208, 0x0000_0008, 0x0802_0008, 0x0002_0200
  ]

  const SB4: seq<bv32> := [
    0x0080_2001, 0x0000_2081, 0x0000_2081, 0x0000_0080, 0x0080_2080, 0x0080_0081, 0x0080_0001, 0x0000_2001,
    0x0000_0000, 0x0080_2000, 0x0080_2000, 0x0080_2081, 0x0000_0081, 0x0000_0000, 0x0080_0080, 0x0080_0001
  ] + [
    0x0000_0001, 0x0000_2000, 0x0080_0000, 0x0080_2001, 0x0000_0080, 0x0080_0000, 0x0000_2001, 0x0000_2080,
    0x0080_0081, 0x0000_0001, 0x0000_2080, 0x0080_0080, 0x0000_2000, 0x0080_2080, 0x0080_2081, 0x0000_0081
  ] + [
    0x0080_0080, 0x0080_0001, 0x0080_2000, 0x0080_2081, 0x0000_0081, 0x0000_0000, 0x0000_0000, 0x0080_2000,
    0x0000_2080, 0x0080_0080, 0x0080_0081, 0x0000_0001, 0x0080_2001, 0x0000_2081, 0x0000_2081, 0x0000_0080
  ] + [
    0x0080_2081, 0x0000_0081, 0x0000_0001, 0x0000_2000, 0x0080_0001, 0x0000_2001, 0x0080_2080, 0x0080_0081,
    0x0000_2001, 0x0000_2080, 0x0080_0000, 0x0080_2001, 0x0000_0080, 0x0080_0000, 0x0000_2000, 0x0080_2080
  ]

  const SB5: seq<bv32> := [
    0x0000_0100, 0x0208_0100, 0x0208_0000, 0x4200_0100, 0x0008_0000, 0x0000_0100, 0x4000_0000, 0x0208_0000,
    0x4008_0100, 0x0008_0000, 0x0200_0100, 0x4008_0100, 0x4200_0100, 0x4208_0000, 0x0008_0100, 0x4000_0000
  ] + [
    0x0200_0000, 0x4008_0000, 0x4008_0000, 0x0000_0000, 0x4000_0100, 0x4208_0100, 0x4208_0100, 0x0200_0100,
    0x4208_0000, 0x4000_0100, 0x0000_0000, 0x4200_0000, 0x0208_0100, 0x0200_0000, 0x4200_0000, 0x0008_0100
  ] + [
    0x0008_0000, 0x4200_0100, 0x0000_0100, 0x0200_0000, 0x4000_0000, 0x0208_0000, 0x4200_0100, 0x4008_0100,
    0x0200_0100, 0x4000_0000, 0x4208_0000, 0x0208_0100, 0x4008_0100, 0x0000_0100, 0x0200_0000, 0x4208_0000
  ] + [
    0x4208_0100, 0x0008_0100, 0x4200_0000, 0x4208_0100, 0x0208_0000, 0x0000_0000, 0x4008_0000, 0x4200_0000,
    0x0008_0100, 0x0200_0100, 0x4000_0100, 0x0008_0000, 0x0000_0000, 0x4008_0000, 0x0208_0100, 0x4000_0100
  ]

  const SB6: seq<bv32> := [
    0x2000_0010, 0x2040_0000, 0x0000_4000, 0x2040_4010, 0x2040_0000, 0x0000_0010, 0x2040_4010, 0x0040_0000,
    0x2000_4000, 0x0040_4010, 0x0040_0000, 0x2000_0010, 0x0040_0010, 0x2000_4000, 0x2000_0000, 0x0000_4010
  ] + [
    0x0000_0000, 0x0040_0010, 0x2000_4010, 0x0000_4000, 0x0040_4000, 0x2000_4010, 0x0000_0010, 0x2040_0010,
    0x2040_0010, 0x0000_0000, 0x0040_4010, 0x2040_4000, 0x0000_4010, 0x0040_4000, 0x2040_4000, 0x2000_0000
  ] + [
    0x2000_4000, 0x0000_0010, 0x2040_0010, 0x0040_4000, 0x2040_4010, 0x0040_0000, 0x0000_4010, 0x2000_0010,
    0x0040_0000, 0x2000_4000, 0x2000_0000, 0x0000_4010, 0x2000_0010, 0x2040_4010, 0x0040_4000, 0x2040_0000
  ] + [
    0x0040_4010, 0x2040_4000, 0x0000_0000, 0x2040_0010, 0x0000_0010, 0x0000_4000, 0x2040_0000, 0x0040_4010,
    0x0000_4000, 0x0040_0010, 0x2000_4010, 0x0000_0000, 0x2040_4000, 0x2000_0000, 0x0040_0010, 0x2000_4010
  ]

  const SB7: seq<bv32> := [
    0x0020_0000, 0x0420_0002, 0x0400_0802, 0x0000_0000, 0x0000_0800, 0x0400_0802, 0x0020_0802, 0x0420_0800,
    0x0420_0802, 0x0020_0000, 0x0000_0000, 0x0400_0002, 0x0000_0002, 0x0400_0000, 0x0420_0002, 0x0000_0802
  ] + [
    0x0400_0800, 0x0020_0802, 0x0020_0002, 0x0400_0800, 0x0400_0002, 0x0420_0000, 0x0420_0800, 0x0020_0002,
    0x0420_0000, 0x0000_0800, 0x0000_0802, 0x0420_0802, 0x0020_0800, 0x0000_0002, 0x0400_0000, 0x0020_0800
  ] + [
    0x0400_0000, 0x0020_0800, 0x0020_0000, 0x0400_0802, 0x0400_0802, 0x0420_0002, 0x0420_0002, 0x0000_0002,
    0x0020_0002, 0x0400_0000, 0x0400_0800, 0x0020_0000, 0x0420_0800, 0x0000_0802, 0x0020_0802, 0x0420_0800
  ] + [
    0x0000_0802, 0x0400_0002, 0x0420_0802, 0x0420_0000, 0x0020_0800, 0x0000_0000, 0x0000_0002, 0x0420_0802,
    0x0000_0000, 0x0020_0802, 0x0420_0000, 0x0000_0800, 0x0400_0002, 0x0400_0800, 0x0000_0800, 0x0020_0002
  ]

  const SB8: seq<bv32> := [
    0x1000_1040, 0x0000_1000, 0x0004_0000, 0x1004_1040, 0x1000_0000, 0x1000_1040, 0x0000_0040, 0x1000_0000,
    0x0004_0040, 0x1004_0000, 0x1004_1040, 0x0004_1000, 0x1004_1000, 0x0004_1040, 0x0000_1000, 0x0000_0040
  ] + [
    0x1004_0000, 0x1000_0040, 0x1000_1000, 0x0000_1040, 0x0004_1000, 0x0004_0040, 0x1004_0040, 0x1004_1000,
    0x0000_1040, 0x0000_0000, 0x0000_0000, 0x1004_0040, 0x1000_0040, 0x1000_1000, 0x0004_1040, 0x0004_0000
  ] + [
    0x0004_1040, 0x0004_0000, 0x1004_1000, 0x0000_1000, 0x0000_0040, 0x1004_0040, 0x0000_1000, 0x0004_1040,
    0x1000_1000, 0x0000_0040, 0x1000_0040, 0x1004_0000, 0x1004_0040, 0x1000_0000, 0x0004_0000, 0x1000_1040
  ] + [
    0x0000_0000, 0x1004_1040, 0x0004_0040, 0x1000_0040, 0x1004_0000, 0x1000_1000, 0x1000_1040, 0x0000_0000,
    0x1004_1040, 0x0004_1000, 0x0004_1000, 0x0000_1040, 0x0000_1040, 0x0004_0040, 0x1000_0000, 0x1004_1000
  ]

  // The first key permutation, four bits at a time.

  const LHs: seq<bv32> := [
    0x0000_0000, 0x0000_0001, 0x0000_0100, 0x0000_0101, 0x0001_0000, 0x0001_0001, 0x0001_0100, 0x0001_0101,
    0x0100_0000, 0x0100_0001, 0x0100_0100, 0x0100_0101, 0x0101_0000, 0x0101_0001, 0x0101_0100, 0x0101_0101
  ]

  const RHs: seq<bv32> := [
    0x0000_0000, 0x0100_0000, 0x0001_0000, 0x0101_0000, 0x0000_0100, 0x0100_0100, 0x0001_0100, 0x0101_0100,
    0x0000_0001, 0x0100_0001, 0x0001_0001, 0x0101_0001, 0x0000_0101, 0x0100_0101, 0x0001_0101, 0x0101_0101
  ]

  // ---------------------------------------------------------------------------
  // Permutations
  // ---------------------------------------------------------------------------

  datatype Pair = Pair(x: bv32, y: bv32)

  /** Exchanges the bits of `y` under a mask with those of `x` that are `n` places to their left. */
  function Exchange4(p: Pair): Pair {
    var t := ((p.x >> 4) ^ p.y) & 0x0f0f_0f0f;
    Pair(p.x ^ (t << 4), p.y ^ t)
  }

  function Exchange16(p: Pair): Pair {
    var t := ((p.x >> 16) ^ p.y) & 0x0000_ffff;
    Pair(p.x ^ (t << 16), p.y ^ t)
  }

  function Exchange2(p: Pair): Pair {
    var t := ((p.y >> 2) ^ p.x) & 0x3333_3333;
    Pair(p.x ^ t, p.y ^ (t << 2))
  }

  function Exchange8(p: Pair): Pair {
    var t := ((p.y >> 8) ^ p.x) & 0x00ff_00ff;
    Pair(p.x ^ t, p.y ^ (t << 8))
  }

  function ExchangeOdd(p: Pair): Pair {
    var t := (p.x ^ p.y) & 0xaaaa_aaaa;
    Pair(p.x ^ t, p.y ^ t)
  }

  function RotateLeft(x: bv32): bv32 { (x << 1) | (x >> 31) }
  function RotateRight(x: bv32): bv32 { (x << 31) | (x >> 1) }

  /** `DES_IP`. */
  function InitialPermutation(p: Pair): Pair {
    var a := Exchange8(Exchange2(Exchange16(Exchange4(p))));
    var b := ExchangeOdd(Pair(a.x, RotateLeft(a.y)));
    Pair(RotateLeft(b.x), b.y)
  }

  /** `DES_FP`. */
  function FinalPermutation(p: Pair): Pair {
    var b := ExchangeOdd(Pair(RotateRight(p.x), p.y));
    Exchange4(Exchange16(Exchange2(Exchange8(Pair(b.x, RotateRight(b.y))))))
  }

  lemma Exchange4Twice(p: Pair) ensures Exchange4(Exchange4(p)) == p { }
  lemma Exchange16Twice(p: Pair) ensures Exchange16(Exchange16(p)) == p { }
  lemma Exchange2Twice(p: Pair) ensures Exchange2(Exchange2(p)) == p { }
  lemma Exchange8Twice(p: Pair) ensures Exchange8(Exchange8(p)) == p { }
  lemma ExchangeOddTwice(p: Pair) ensures ExchangeOdd(ExchangeOdd(p)) == p { }

  lemma Rotations(x: bv32)
    ensures RotateLeft(RotateRight(x)) == x && RotateRight(RotateLeft(x)) == x
  {
  }

  /** The two permutations undo each other. */
  lemma PermutationsInverse(p: Pair)
    ensures InitialPermutation(FinalPermutation(p)) == p
    ensures FinalPermutation(InitialPermutation(p)) == p
  {
    var b := ExchangeOdd(Pair(RotateRight(p.x), p.y));
    var p1 := Pair(b.x, RotateRight(b.y));
    var p2 := Exchange8(p1);
    var p3 := Exchange2(p2);
    var p4 := Exchange16(p3);
    Rotations(p.x);
    Rotations(b.y);
    ExchangeOddTwice(Pair(RotateRight(p.x), p.y));
    Exchange8Twice(p1);
    Exchange2Twice(p2);
    Exchange16Twice(p3);
    Exchange4Twice(p4);
    var q2 := Exchange4(p);
    var q3 := Exchange16(q2);
    var q4 := Exchange2(q3);
    var a := Exchange8(q4);
    var c := ExchangeOdd(Pair(a.x, RotateLeft(a.y)));
    Exchange4Twice(p);
    Exchange16Twice(q2);
    Exchange2Twice(q3);
    Exchange8Twice(q4);
    ExchangeOddTwice(Pair(a.x, RotateLeft(a.y)));
    Rotations(c.x);
    Rotations(a.y);
    hide Exchange2, Exchange4, Exchange8, Exchange16, ExchangeOdd, RotateLeft, RotateRight;
  }

  // ---------------------------------------------------------------------------
  // Rounds
  // ---------------------------------------------------------------------------

  function Box(table: seq<bv32>, t: bv32): bv32
    requires |table| == 64
  {
    table[(t & 0x3f) as int]
  }

  function Xor(x: bv32, y: bv32): bv32 { x ^ y }

  function Xor4(a: bv32, b: bv32, c: bv32, d: bv32): bv32 { Xor(Xor(Xor(a, b), c), d) }

  // What `DES_ROUND` mixes into one half from the other half and two subkeys: the boxes of even number first.

  function EvenBoxes(t: bv32): bv32 {
    Xor4(Box(SB8, t), Box(SB6, t >> 8), Box(SB4, t >> 16), Box(SB2, t >> 24))
  }

  function OddBoxes(t: bv32): bv32 {
    Xor4(Box(SB7, t), Box(SB5, t >> 8), Box(SB3, t >> 16), Box(SB1, t >> 24))
  }

  function Turn(x: bv32): bv32 { (x << 28) | (x >> 4) }

  function Mix(k0: bv32, k1: bv32, x: bv32): bv32 {
    Xor(EvenBoxes(k0 ^ x), OddBoxes(k1 ^ Turn(x)))
  }

  /** Two rounds: the right half into the left one, then the left half into the right one. */
  function Double(k0: bv32, k1: bv32, k2: bv32, k3: bv32, p: Pair): Pair {
    var x := Xor(p.x, Mix(k0, k1, p.y));
    Pair(x, Xor(p.y, Mix(k2, k3, x)))
  }

  /** The first `2 * n` rounds. */
  function Rounds(sk: seq<bv32>, n: nat, p: Pair): Pair
    requires |sk| == 32 && n <= 8
  {
    if n == 0 then p
    else Double(sk[4 * n - 4], sk[4 * n - 3], sk[4 * n - 2], sk[4 * n - 1], Rounds(sk, n - 1, p))
  }

  function Swapped(p: Pair): Pair { Pair(p.y, p.x) }

  /** The subkeys of `rk` are those of `sk`, the last pair first. */
  ghost predicate Reversed(sk: seq<bv32>, rk: seq<bv32>) {
    |sk| == |rk| == 32 && forall i :: 0 <= i < 32 ==> rk[i] == sk[if i % 2 == 0 then 30 - i else 32 - i]
  }

  lemma XorTwice(x: bv32, y: bv32)
    ensures Xor(Xor(x, y), y) == x
  {
  }

  lemma DoubleUndo(k0: bv32, k1: bv32, k2: bv32, k3: bv32, p: Pair)
    ensures Double(k2, k3, k0, k1, Swapped(Double(k0, k1, k2, k3, p))) == Swapped(p)
  {
    hide Mix, Xor;
    XorTwice(p.x, Mix(k0, k1, p.y));
    XorTwice(p.y, Mix(k2, k3, Xor(p.x, Mix(k0, k1, p.y))));
  }

  lemma ReversedKeys(sk: seq<bv32>, rk: seq<bv32>, m: nat)
    requires |sk| == |rk| == 32 && Reversed(sk, rk) && 1 <= m <= 8
    ensures rk[4 * m - 4] == sk[34 - 4 * m] && rk[4 * m - 3] == sk[35 - 4 * m]
    ensures rk[4 * m - 2] == sk[32 - 4 * m] && rk[4 * m - 1] == sk[33 - 4 * m]
  {
    assert (4 * m - 4) % 2 == 0 && (4 * m - 3) % 2 == 1 && (4 * m - 2) % 2 == 0 && (4 * m - 1) % 2 == 1;
  }

  lemma RoundsNext(sk: seq<bv32>, n: nat, p: Pair)
    requires |sk| == 32 && 1 <= n <= 8
    ensures Rounds(sk, n, p)
      == Double(sk[4 * n - 4], sk[4 * n - 3], sk[4 * n - 2], sk[4 * n - 1], Rounds(sk, n - 1, p))
  {
    hide Double;
  }

  lemma NothingDone(sk: seq<bv32>, p: Pair)
    requires |sk| == 32
    ensures Rounds(sk, 0, p) == p
  {
  }

  /** One more double round is undone. */
  lemma DoubleRoundUndo(sk: seq<bv32>, rk: seq<bv32>, m: nat, p: Pair, start: Pair)
    requires |sk| == |rk| == 32 && Reversed(sk, rk) && 1 <= m <= 8
    requires Rounds(rk, m - 1, start) == Swapped(Rounds(sk, 9 - m, p))
    ensures Rounds(rk, m, start) == Swapped(Rounds(sk, 8 - m, p))
  {
    hide *;
    ReversedKeys(sk, rk, m);
    var n := 9 - m;
    var q := Rounds(sk, n - 1, p);
    var k0, k1, k2, k3 := sk[4 * n - 4], sk[4 * n - 3], sk[4 * n - 2], sk[4 * n - 1];
    RoundsNext(rk, m, start);
    RoundsNext(sk, n, p);
    DoubleUndo(k0, k1, k2, k3, q);
    calc {
      Rounds(rk, m, start);
      Double(k2, k3, k0, k1, Swapped(Double(k0, k1, k2, k3, q)));
      Swapped(q);
    }
  }

  /** The rounds with reversed subkeys undo the rounds. */
  lemma {:induction false} RoundsUndo(sk: seq<bv32>, rk: seq<bv32>, m: nat, p: Pair)
    requires |sk| == |rk| == 32 && Reversed(sk, rk) && m <= 8
    ensures Rounds(rk, m, Swapped(Rounds(sk, 8, p))) == Swapped(Rounds(sk, 8 - m, p))
  {
    hide *;
    if m == 0 {
      NothingDone(rk, Swapped(Rounds(sk, 8, p)));
    } else {
      RoundsUndo(sk, rk, m - 1, p);
      assert 8 - (m - 1) == 9 - m;
      DoubleRoundUndo(sk, rk, m, p, Swapped(Rounds(sk, 8, p)));
    }
  }

  /** `des_crypt` between the bytes: the halves come out in the other order. */
  function CryptPair(sk: seq<bv32>, p: Pair): Pair
    requires |sk| == 32
  {
    FinalPermutation(Swapped(Rounds(sk, 8, InitialPermutation(p))))
  }

  lemma CryptUndo(sk: seq<bv32>, rk: seq<bv32>, p: Pair)
    requires Reversed(sk, rk)
    ensures CryptPair(rk, CryptPair(sk, p)) == p
  {
    var q := InitialPermutation(p);
    PermutationsInverse(Swapped(Rounds(sk, 8, q)));
    PermutationsInverse(p);
    RoundsUndo(sk, rk, 8, q);
    hide InitialPermutation, FinalPermutation;
  }

  // ---------------------------------------------------------------------------
  // Bytes and keys
  // ---------------------------------------------------------------------------

  function GetUint32(b: seq<bv8>, i: nat): bv32
    requires i + 4 <= |b|
  {
    ((b[i] as bv32) << 24) | ((b[i + 1] as bv32) << 16) | ((b[i + 2] as bv32) << 8) | (b[i + 3] as bv32)
  }

  function PutUint32(n: bv32): (b: seq<bv8>)
    ensures |b| == 4
  {
    [((n >> 24) & 0xff) as bv8, ((n >> 16) & 0xff) as bv8, ((n >> 8) & 0xff) as bv8, (n & 0xff) as bv8]
  }

  lemma GetPut(n: bv32)
    ensures GetUint32(PutUint32(n), 0) == n
  {
  }

  lemma PutGet(b: seq<bv8>)
    requires |b| == 4
    ensures PutUint32(GetUint32(b, 0)) == b
  {
  }

  function RotateKey(x: bv32, i: nat): bv32 {
    if i < 2 || i == 8 || i == 15 then ((x << 1) | (x >> 27)) & 0x0fff_ffff
    else ((x << 2) | (x >> 26)) & 0x0fff_ffff
  }

  function Subkey0(x: bv32, y: bv32): bv32 {
    ((x << 4) & 0x2400_0000) | ((x << 28) & 0x1000_0000) | ((x << 14) & 0x0800_0000) | ((x << 18) & 0x0208_0000)
    | ((x << 6) & 0x0100_0000) | ((x << 9) & 0x0020_0000) | ((x >> 1) & 0x0010_0000) | ((x << 10) & 0x0004_0000)
    | ((x << 2) & 0x0002_0000) | ((x >> 10) & 0x0001_0000) | ((y >> 13) & 0x0000_2000) | ((y >> 4) & 0x0000_1000)
    | ((y << 6) & 0x0000_0800) | ((y >> 1) & 0x0000_0400) | ((y >> 14) & 0x0000_0200) | (y & 0x0000_0100)
    | ((y >> 5) & 0x0000_0020) | ((y >> 10) & 0x0000_0010) | ((y >> 3) & 0x0000_0008) | ((y >> 18) & 0x0000_0004)
    | ((y >> 26) & 0x0000_0002) | ((y >> 24) & 0x0000_0001)
  }

  function Subkey1(x: bv32, y: bv32): bv32 {
    ((x << 15) & 0x2000_0000) | ((x << 17) & 0x1000_0000) | ((x << 10) & 0x0800_0000) | ((x << 22) & 0x0400_0000)
    | ((x >> 2) & 0x0200_0000) | ((x << 1) & 0x0100_0000) | ((x << 16) & 0x0020_0000) | ((x << 11) & 0x0010_0000)
    | ((x << 3) & 0x0008_0000) | ((x >> 6) & 0x0004_0000) | ((x << 15) & 0x0002_0000) | ((x >> 4) & 0x0001_0000)
    | ((y >> 2) & 0x0000_2000) | ((y << 8) & 0x0000_1000) | ((y >> 14) & 0x0000_0808) | ((y >> 9) & 0x0000_0400)
    | (y & 0x0000_0200) | ((y << 7) & 0x0000_0100) | ((y >> 7) & 0x0000_0020) | ((y >> 3) & 0x0000_0011)
    | ((y << 2) & 0x0000_0004) | ((y >> 21) & 0x0000_0002)
  }

  function SubkeysFrom(i: nat, x: bv32, y: bv32): (sk: seq<bv32>)
    requires i <= 16
    ensures |sk| == 2 * (16 - i)
    decreases 16 - i
  {
    if i == 16 then []
    else
      var x', y' := RotateKey(x, i), RotateKey(y, i);
      [Subkey0(x', y'), Subkey1(x', y')] + SubkeysFrom(i + 1, x', y')
  }

  function Nibble(table: seq<bv32>, x: bv32): bv32
    requires |table| == 16
  {
    table[(x & 0xf) as int]
  }

  function KeyLeft(x: bv32): bv32 {
    ((Nibble(LHs, x) << 3) | (Nibble(LHs, x >> 8) << 2) | (Nibble(LHs, x >> 16) << 1) | Nibble(LHs, x >> 24)
     | (Nibble(LHs, x >> 5) << 7) | (Nibble(LHs, x >> 13) << 6) | (Nibble(LHs, x >> 21) << 5) | (Nibble(LHs, x >> 29) << 4))
    & 0x0fff_ffff
  }

  function KeyRight(y: bv32): bv32 {
    ((Nibble(RHs, y >> 1) << 3) | (Nibble(RHs, y >> 9) << 2) | (Nibble(RHs, y >> 17) << 1) | Nibble(RHs, y >> 25)
     | (Nibble(RHs, y >> 4) << 7) | (Nibble(RHs, y >> 12) << 6) | (Nibble(RHs, y >> 20) << 5) | (Nibble(RHs, y >> 28) << 4))
    & 0x0fff_ffff
  }

  /** The exchange of bits between the halves of a key in front of the tables. */
  function SwapBits(p: Pair): Pair {
    var t := ((p.y >> 4) ^ p.x) & 0x0f0f_0f0f;
    var x1, y1 := p.x ^ t, p.y ^ (t << 4);
    var u := (y1 ^ x1) & 0x1010_1010;
    Pair(x1 ^ u, y1 ^ u)
  }

  /** `des_main_ks`. */
  function KeySchedule(key: seq<bv8>): (sk: seq<bv32>)
    requires |key| == 8
    ensures |sk| == 32
  {
    var p := SwapBits(Pair(GetUint32(key, 0), GetUint32(key, 4)));
    SubkeysFrom(0, KeyLeft(p.x), KeyRight(p.y))
  }

  /** `des_crypt`, on a block of eight bytes. */
  function Crypt(sk: seq<bv32>, b: seq<bv8>): (r: seq<bv8>)
    requires |sk| == 32 && |b| == 8
    ensures |r| == 8
  {
    var p := CryptPair(sk, Pair(GetUint32(b, 0), GetUint32(b, 4)));
    PutUint32(p.x) + PutUint32(p.y)
  }

  lemma CryptBlockUndo(sk: seq<bv32>, rk: seq<bv32>, b: seq<bv8>)
    requires Reversed(sk, rk) && |b| == 8
    ensures Crypt(rk, Crypt(sk, b)) == b
  {
    assert |sk| == |rk| == 32;
    hide CryptPair, GetUint32, PutUint32, Reversed;
    var p := Pair(GetUint32(b, 0), GetUint32(b, 4));
    Halves(CryptPair(sk, p));
    CryptUndo(sk, rk, p);
    PutGetBlock(b);
  }

  lemma GetParts(b: seq<bv8>)
    requires |b| == 8
    ensures GetUint32(b[..4], 0) == GetUint32(b, 0) && GetUint32(b[4..], 0) == GetUint32(b, 4)
  {
  }

  lemma PutGetBlock(b: seq<bv8>)
    requires |b| == 8
    ensures PutUint32(GetUint32(b, 0)) + PutUint32(GetUint32(b, 4)) == b
  {
    hide *;
    PutGet(b[..4]);
    PutGet(b[4..]);
    GetParts(b);
    assert b == b[..4] + b[4..];
  }

  lemma GetFirst(a: seq<bv8>, b: seq<bv8>)
    requires |a| == |b| == 4
    ensures GetUint32(a + b, 0) == GetUint32(a, 0) && GetUint32(a + b, 4) == GetUint32(b, 0)
  {
  }

  lemma Halves(q: Pair)
    ensures GetUint32(PutUint32(q.x) + PutUint32(q.y), 0) == q.x
    ensures GetUint32(PutUint32(q.x) + PutUint32(q.y), 4) == q.y
  {
    hide *;
    GetPut(q.x);
    GetPut(q.y);
    GetFirst(PutUint32(q.x), PutUint32(q.y));
  }

  /** A text of whole blocks, block by block. */
  function CryptAll(sk: seq<bv32>, s: seq<bv8>): (r: seq<bv8>)
    requires |sk| == 32 && |s| % 8 == 0
    ensures |r| == |s|
  {
    if s == [] then [] else Crypt(sk, s[..8]) + CryptAll(sk, s[8..])
  }

  lemma CryptAllNext(sk: seq<bv32>, b: seq<bv8>, s: seq<bv8>)
    requires |sk| == 32 && |b| == 8 && |s| % 8 == 0
    ensures CryptAll(sk, b + s) == Crypt(sk, b) + CryptAll(sk, s)
  {
    hide Crypt;
    assert (b + s)[..8] == b && (b + s)[8..] == s;
  }

  lemma {:induction false} CryptAllUndo(sk: seq<bv32>, rk: seq<bv32>, s: seq<bv8>)
    requires Reversed(sk, rk) && |s| % 8 == 0
    ensures CryptAll(rk, CryptAll(sk, s)) == s
  {
    hide Crypt;
    if s != [] {
      hide CryptAll, Reversed;
      var b, rest := s[..8], s[8..];
      assert s == b + rest;
      CryptAllNext(sk, b, rest);
      CryptAllNext(rk, Crypt(sk, b), CryptAll(sk, rest));
      CryptBlockUndo(sk, rk, b);
      CryptAllUndo(sk, rk, rest);
    }
  }

  lemma {:induction false} CryptAllAppend(sk: seq<bv32>, s: seq<bv8>, t: seq<bv8>)
    requires |sk| == 32 && |s| % 8 == 0 && |t| % 8 == 0
    ensures CryptAll(sk, s + t) == CryptAll(sk, s) + CryptAll(sk, t)
  {
    hide Crypt;
    if s == [] {
      assert s + t == t;
    } else {
      hide CryptAll;
      var b, rest := s[..8], s[8..];
      assert s == b + rest && s + t == b + (rest + t);
      CryptAllNext(sk, b, rest);
      CryptAllNext(sk, b, rest + t);
      CryptAllAppend(sk, rest, t);
    }
  }

  // ---------------------------------------------------------------------------
  // Padding
  // ---------------------------------------------------------------------------

  datatype Mode = Iso7816 | Pkcs7

  function Repeat(x: bv8, n: nat): (r: seq<bv8>)
    ensures |r| == n
  {
    seq(n, _ => x)
  }

  /** What is added after the last `offset` bytes of a text. */
  function Padding(mode: Mode, offset: nat): (r: seq<bv8>)
    requires offset < 8
    ensures |r| == 8 - offset
  {
    match mode
    case Iso7816 => [0x80] + Repeat(0, 7 - offset)
    case Pkcs7 => Repeat((8 - offset) as bv8, 8 - offset)
  }

  function Pad(mode: Mode, text: seq<bv8>): (r: seq<bv8>)
    ensures |r| % 8 == 0 && |r| > 0
  {
    text + Padding(mode, |text| % 8)
  }

  /** The last `n` bytes of a text are padding: the byte 0x80 and zeros, or `n` times `n`. */
  ghost predicate PaddedBy(mode: Mode, s: seq<bv8>, n: nat) {
    && 1 <= n <= 8 && n <= |s|
    && match mode
       case Iso7816 => s[|s| - n] == 0x80 && forall x :: |s| - n < x < |s| ==> s[x] == 0
       case Pkcs7 => forall x :: |s| - n <= x < |s| ==> s[x] == n as bv8
  }

  lemma PadPads(mode: Mode, text: seq<bv8>)
    ensures PaddedBy(mode, Pad(mode, text), 8 - |text| % 8)
  {
    var s, n := Pad(mode, text), 8 - |text| % 8;
    assert s[|s| - n] == Padding(mode, 8 - n)[0];
    forall x | |s| - n <= x < |s| ensures s[x] == Padding(mode, 8 - n)[x - (|s| - n)] { }
  }

  /** `padding_remove_iso7816_4`: looks back over at most eight bytes. */
  method RemoveIso7816(s: seq<bv8>) returns (n: nat)
    requires |s| >= 8
    ensures n <= 8 && forall k: nat :: PaddedBy(Iso7816, s, k) <==> k == n && n > 0
  {
    var padding := 1;
    for i := 0 to 8
      invariant padding == i + 1 && forall x :: |s| - i <= x < |s| ==> s[x] == 0
    {
      var last := s[|s| - 1 - i];
      if last == 0 {
        padding := padding + 1;
      } else {
        IsoEnd(s, i);
        if last == 0x80 { return padding; }
        return 0;
      }
    }
    return 0;
  }

  /** The first byte from the end that is not zero settles where the padding begins. */
  lemma IsoEnd(s: seq<bv8>, i: nat)
    requires |s| >= 8 && i < 8 && s[|s| - 1 - i] != 0 && forall x :: |s| - i <= x < |s| ==> s[x] == 0
    ensures forall k: nat :: PaddedBy(Iso7816, s, k) <==> k == i + 1 && s[|s| - 1 - i] == 0x80
  {
    forall k: nat ensures PaddedBy(Iso7816, s, k) <==> k == i + 1 && s[|s| - 1 - i] == 0x80 { }
  }

  /** All bytes of the text are the same and stand for a padding that is longer than the text. */
  ghost predicate OverlongPadding(s: seq<bv8>) {
    && |s| > 0 && s[|s| - 1] as int > |s|
    && forall x :: 0 <= x < |s| ==> s[x] == s[|s| - 1]
  }

  /** `padding_remove_pkcs7`. The loop goes back as far as the last byte says, which may be in front of the text:
      `outside` says whether it reads there. What it finds there may be anything. */
  method RemovePkcs7(s: seq<bv8>) returns (n: nat, outside: bool)
    requires |s| >= 8
    ensures n <= 0xff && forall k: nat :: PaddedBy(Pkcs7, s, k) <==> k == n && 0 < n <= 8
    ensures outside <==> OverlongPadding(s)
    ensures n == 0 || n == s[|s| - 1] as int
  {
    var last := s[|s| - 1];
    var padding := last as int;
    PkcsEnd(s, padding);
    n, outside := padding, false;
    var i := 1;
    while i < padding
      invariant 1 <= i && n == padding && (outside <==> i > |s|)
      invariant forall x :: 0 <= x < |s| && |s| - i <= x ==> s[x] == last
      invariant i <= |s| || padding > |s|
      invariant i > 1 ==> i <= padding
    {
      var same: bool;
      if i < |s| {
        same := s[|s| - 1 - i] == last;
      } else {
        outside := true;
        same := *;
      }
      if !same { return 0, outside; }
      i := i + 1;
    }
  }

  /** A block of eight bytes 0xff is such a text, and some message decrypts to it under every key. */
  lemma OverlongExample(key: seq<bv8>) returns (text: seq<bv8>)
    requires |key| == 8
    ensures |text| == 8 && OverlongPadding(Plain(key, text))
  {
    var block := Repeat(0xff, 8);
    text := CryptAll(KeySchedule(key), block);
    CryptAllUndo(KeySchedule(key), ReverseOf(KeySchedule(key)), block);
    hide KeySchedule, CryptAll, ReverseOf;
    assert (0xff as bv8) as int == 255;
  }

  /** The last byte settles how long the padding must be. */
  lemma PkcsEnd(s: seq<bv8>, n: nat)
    requires |s| >= 8 && n == s[|s| - 1] as int
    ensures forall k: nat :: PaddedBy(Pkcs7, s, k) <==> k == n && PaddedBy(Pkcs7, s, n)
    ensures 1 <= n <= 8 ==> s[|s| - 1] == n as bv8
  {
    forall k: nat ensures PaddedBy(Pkcs7, s, k) <==> k == n && PaddedBy(Pkcs7, s, n) {
      if 1 <= k <= 8 { assert (k as bv8) as int == k; }
    }
  }

  // ---------------------------------------------------------------------------
  // Texts
  // ---------------------------------------------------------------------------

  function ReverseOf(sk: seq<bv32>): (rk: seq<bv32>)
    requires |sk| == 32
    ensures |rk| == 32 && Reversed(sk, rk)
  {
    seq(32, i requires 0 <= i < 32 => if i % 2 == 0 then sk[30 - i] else sk[32 - i])
  }

  /** What a text decodes to before the padding is taken off. */
  function Plain(key: seq<bv8>, text: seq<bv8>): (s: seq<bv8>)
    requires |key| == 8 && |text| % 8 == 0
    ensures |s| == |text|
  {
    CryptAll(ReverseOf(KeySchedule(key)), text)
  }

  /** Encrypts a text of whole blocks, one after the other. */
  method CryptBlocks(sk: seq<bv32>, text: seq<bv8>) returns (buffer: seq<bv8>)
    requires |sk| == 32 && |text| % 8 == 0
    ensures buffer == CryptAll(sk, text)
  {
    buffer := [];
    var i := 0;
    hide Crypt;
    while i < |text|
      invariant i <= |text| && i % 8 == 0 && buffer == CryptAll(sk, text[..i])
    {
      var b := text[i..i + 8];
      assert text[..i + 8] == text[..i] + b;
      CryptAllAppend(sk, text[..i], b);
      CryptOne(sk, b);
      buffer := buffer + Crypt(sk, b);
      i := i + 8;
    }
    assert text[..i] == text;
  }

  /** `ldesencode`: the whole blocks of the text, then one with the rest of it and the padding. */
  method DesEncode(key: seq<bv8>, text: seq<bv8>, mode: Mode) returns (r: Result<seq<bv8>>)
    ensures r.Ok? <==> |key| == 8
    ensures r.Ok? ==> r.value == CryptAll(KeySchedule(key), Pad(mode, text))
  {
    if |key| != 8 { return Err("Invalid key size"); }
    hide KeySchedule, Crypt, CryptAll, Pad, Padding;
    var sk := KeySchedule(key);
    var i := |text| / 8 * 8;
    var buffer := CryptBlocks(sk, text[..i]);
    var tail := text[i..] + Padding(mode, |text| - i);
    PadSplit(mode, text, i);
    CryptAllAppend(sk, text[..i], tail);
    CryptOne(sk, tail);
    r := Ok(buffer + Crypt(sk, tail));
  }

  lemma PadSplit(mode: Mode, text: seq<bv8>, i: nat)
    requires i == |text| / 8 * 8
    ensures |text| - i == |text| % 8 && Pad(mode, text) == text[..i] + (text[i..] + Padding(mode, |text| - i))
  {
  }

  lemma CryptOne(sk: seq<bv32>, b: seq<bv8>)
    requires |sk| == 32 && |b| == 8
    ensures CryptAll(sk, b) == Crypt(sk, b)
  {
    hide Crypt;
    assert b[..8] == b && b[8..] == [];
  }

  /** The reversal of the subkeys, two at a time. */
  method ReverseKeys(esk: seq<bv32>) returns (sk: seq<bv32>)
    requires |esk| == 32
    ensures sk == ReverseOf(esk)
  {
    sk := [];
    while |sk| < 32
      invariant |sk| % 2 == 0 && |sk| <= 32 && sk == ReverseOf(esk)[..|sk|]
      decreases 32 - |sk|
    {
      var i := |sk|;
      sk := sk + [esk[30 - i], esk[31 - i]];
    }
  }

  method Decrypt(key: seq<bv8>, text: seq<bv8>) returns (buffer: seq<bv8>)
    requires |key| == 8 && |text| % 8 == 0
    ensures buffer == Plain(key, text)
  {
    hide KeySchedule, CryptAll, ReverseOf;
    var sk := ReverseKeys(KeySchedule(key));
    buffer := CryptBlocks(sk, text);
  }

  method RemovePadding(mode: Mode, s: seq<bv8>) returns (padding: nat)
    requires |s| > 0 && |s| % 8 == 0
    ensures forall n: nat :: PaddedBy(mode, s, n) <==> n == padding && 0 < padding <= 8
  {
    if mode == Iso7816 {
      padding := RemoveIso7816(s);
    } else {
      var outside;
      padding, outside := RemovePkcs7(s);
    }
  }

  /** `ldesdecode`: an error for a key or a text of the wrong length and for a text without padding. */
  method DesDecode(key: seq<bv8>, text: seq<bv8>, mode: Mode) returns (r: Result<seq<bv8>>)
    ensures r.Ok? <==>
      |key| == 8 && |text| % 8 == 0 && |text| > 0 && exists n: nat :: PaddedBy(mode, Plain(key, text), n)
    ensures r.Ok? ==> forall n: nat :: PaddedBy(mode, Plain(key, text), n) ==> r.value == Plain(key, text)[..|text| - n]
  {
    if |key| != 8 { return Err("Invalid key size"); }
    if |text| % 8 != 0 || |text| == 0 { return Err("Invalid des crypt text length"); }
    hide PaddedBy, Plain;
    var buffer := Decrypt(key, text);
    var padding := RemovePadding(mode, buffer);
    if padding <= 0 || padding > 8 { return Err("Invalid des crypt text"); }
    assert PaddedBy(mode, buffer, padding);
    r := Ok(buffer[..|buffer| - padding]);
  }

  /** What was encoded has its text in front of the padding, and no other way to read the padding. */
  lemma EncodedIsPadded(key: seq<bv8>, text: seq<bv8>, mode: Mode)
    requires |key| == 8
    ensures var code := CryptAll(KeySchedule(key), Pad(mode, text));
      && Plain(key, code) == Pad(mode, text)
      && PaddedBy(mode, Plain(key, code), 8 - |text| % 8)
      && Plain(key, code)[..|code| - (8 - |text| % 8)] == text
  {
    var sk := KeySchedule(key);
    CryptAllUndo(sk, ReverseOf(sk), Pad(mode, text));
    PadPads(mode, text);
    hide KeySchedule, CryptAll, ReverseOf, PaddedBy;
  }

  /** For every key, text and padding, decoding what was encoded gives the text back. */
  method RoundTrip(key: seq<bv8>, text: seq<bv8>, mode: Mode) returns (r: Result<seq<bv8>>)
    requires |key| == 8
    ensures r == Ok(text)
  {
    var code := DesEncode(key, text, mode);
    EncodedIsPadded(key, text, mode);
    hide KeySchedule, CryptAll, PaddedBy, Plain, Pad;
    r := DesDecode(key, code.value, mode);
  }
}
