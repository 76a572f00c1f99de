/** The Data Encryption Standard (FIPS 46-3): its tables as the standard prints them, and how it uses them. Bit 1 of a
    word is the leftmost one; the bits of a pair of words are numbered through. */
module DesStandard {

  datatype Halves = Halves(l: bv32, r: bv32)

  type Position = n: nat | 1 <= n <= 64 witness 1

  /** Bit `n` of a pair of words. */
  function Bit(h: Halves, n: Position): bv32 {
    if n <= 32 then (h.l >> (32 - n)) & 1 else (h.r >> (64 - n)) & 1
  }

  /** Six of its bits, as a word. */
  function Row6(h: Halves, a: Position, b: Position, c: Position, d: Position, e: Position, f: Position): bv32 {
    (Bit(h, a) << 5) | (Bit(h, b) << 4) | (Bit(h, c) << 3) | (Bit(h, d) << 2) | (Bit(h, e) << 1) | Bit(h, f)
  }

  function Row7(h: Halves, a: Position, b: Position, c: Position, d: Position, e: Position, f: Position, g: Position): bv32 {
    (Row6(h, a, b, c, d, e, f) << 1) | Bit(h, g)
  }

  function Row8(h: Halves, a: Position, b: Position, c: Position, d: Position, e: Position, f: Position, g: Position,
                i: Position): bv32
  {
    (Row6(h, a, b, c, d, e, f) << 2) | (Bit(h, g) << 1) | Bit(h, i)
  }

  function Word(a: bv32, b: bv32, c: bv32, d: bv32): bv32 { (a << 24) | (b << 16) | (c << 8) | d }

  // ---------------------------------------------------------------------------
  // Enciphering
  // ---------------------------------------------------------------------------

  /** The table IP. */
  function IP(h: Halves): Halves {
    Halves(
      Word(
        Row8(h, 58, 50, 42, 34, 26, 18, 10, 2),
        Row8(h, 60, 52, 44, 36, 28, 20, 12, 4),
        Row8(h, 62, 54, 46, 38, 30, 22, 14, 6),
        Row8(h, 64, 56, 48, 40, 32, 24, 16, 8)),
      Word(
        Row8(h, 57, 49, 41, 33, 25, 17, 9, 1),
        Row8(h, 59, 51, 43, 35, 27, 19, 11, 3),
        Row8(h, 61, 53, 45, 37, 29, 21, 13, 5),
        Row8(h, 63, 55, 47, 39, 31, 23, 15, 7)))
  }

  /** The table of its inverse. */
  function InverseIP(h: Halves): Halves {
    Halves(
      Word(
        Row8(h, 40, 8, 48, 16, 56, 24, 64, 32),
        Row8(h, 39, 7, 47, 15, 55, 23, 63, 31),
        Row8(h, 38, 6, 46, 14, 54, 22, 62, 30),
        Row8(h, 37, 5, 45, 13, 53, 21, 61, 29)),
      Word(
        Row8(h, 36, 4, 44, 12, 52, 20, 60, 28),
        Row8(h, 35, 3, 43, 11, 51, 19, 59, 27),
        Row8(h, 34, 2, 42, 10, 50, 18, 58, 26),
        Row8(h, 33, 1, 41, 9, 49, 17, 57, 25)))
  }

  /** Eight groups of six bits. */
  datatype Groups = Groups(g1: bv32, g2: bv32, g3: bv32, g4: bv32, g5: bv32, g6: bv32, g7: bv32, g8: bv32)

  /** The bit-selection table E. */
  function E(r: bv32): Groups {
    var h := Halves(r, 0);
    Groups(
      Row6(h, 32, 1, 2, 3, 4, 5),
      Row6(h, 4, 5, 6, 7, 8, 9),
      Row6(h, 8, 9, 10, 11, 12, 13),
      Row6(h, 12, 13, 14, 15, 16, 17),
      Row6(h, 16, 17, 18, 19, 20, 21),
      Row6(h, 20, 21, 22, 23, 24, 25),
      Row6(h, 24, 25, 26, 27, 28, 29),
      Row6(h, 28, 29, 30, 31, 32, 1))
  }

  // The selection functions, each of four rows.

  const Table1: seq<seq<bv4>> := [
    [14, 4, 13, 1, 2, 15, 11, 8, 3, 10, 6, 12, 5, 9, 0, 7],
    [0, 15, 7, 4, 14, 2, 13, 1, 10, 6, 12, 11, 9, 5, 3, 8],
    [4, 1, 14, 8, 13, 6, 2, 11, 15, 12, 9, 7, 3, 10, 5, 0],
    [15, 12, 8, 2, 4, 9, 1, 7, 5, 11, 3, 14, 10, 0, 6, 13]
  ]

  const Table2: seq<seq<bv4>> := [
    [15, 1, 8, 14, 6, 11, 3, 4, 9, 7, 2, 13, 12, 0, 5, 10],
    [3, 13, 4, 7, 15, 2, 8, 14, 12, 0, 1, 10, 6, 9, 11, 5],
    [0, 14, 7, 11, 10, 4, 13, 1, 5, 8, 12, 6, 9, 3, 2, 15],
    [13, 8, 10, 1, 3, 15, 4, 2, 11, 6, 7, 12, 0, 5, 14, 9]
  ]

  const Table3: seq<seq<bv4>> := [
    [10, 0, 9, 14, 6, 3, 15, 5, 1, 13, 12, 7, 11, 4, 2, 8],
    [13, 7, 0, 9, 3, 4, 6, 10, 2, 8, 5, 14, 12, 11, 15, 1],
    [13, 6, 4, 9, 8, 15, 3, 0, 11, 1, 2, 12, 5, 10, 14, 7],
    [1, 10, 13, 0, 6, 9, 8, 7, 4, 15, 14, 3, 11, 5, 2, 12]
  ]

  const Table4: seq<seq<bv4>> := [
    [7, 13, 14, 3, 0, 6, 9, 10, 1, 2, 8, 5, 11, 12, 4, 15],
    [13, 8, 11, 5, 6, 15, 0, 3, 4, 7, 2, 12, 1, 10, 14, 9],
    [10, 6, 9, 0, 12, 11, 7, 13, 15, 1, 3, 14, 5, 2, 8, 4],
    [3, 15, 0, 6, 10, 1, 13, 8, 9, 4, 5, 11, 12, 7, 2, 14]
  ]

  const Table5: seq<seq<bv4>> := [
    [2, 12, 4, 1, 7, 10, 11, 6, 8, 5, 3, 15, 13, 0, 14, 9],
    [14, 11, 2, 12, 4, 7, 13, 1, 5, 0, 15, 10, 3, 9, 8, 6],
    [4, 2, 1, 11, 10, 13, 7, 8, 15, 9, 12, 5, 6, 3, 0, 14],
    [11, 8, 12, 7, 1, 14, 2, 13, 6, 15, 0, 9, 10, 4, 5, 3]
  ]

  const Table6: seq<seq<bv4>> := [
    [12, 1, 10, 15, 9, 2, 6, 8, 0, 13, 3, 4, 14, 7, 5, 11],
    [10, 15, 4, 2, 7, 12, 9, 5, 6, 1, 13, 14, 0, 11, 3, 8],
    [9, 14, 15, 5, 2, 8, 12, 3, 7, 0, 4, 10, 1, 13, 11, 6],
    [4, 3, 2, 12, 9, 5, 15, 10, 11, 14, 1, 7, 6, 0, 8, 13]
  ]

  const Table7: seq<seq<bv4>> := [
    [4, 11, 2, 14, 15, 0, 8, 13, 3, 12, 9, 7, 5, 10, 6, 1],
    [13, 0, 11, 7, 4, 9, 1, 10, 14, 3, 5, 12, 2, 15, 8, 6],
    [1, 4, 11, 13, 12, 3, 7, 14, 10, 15, 6, 8, 0, 5, 9, 2],
    [6, 11, 13, 8, 1, 4, 10, 7, 9, 5, 0, 15, 14, 2, 3, 12]
  ]

  const Table8: seq<seq<bv4>> := [
    [13, 2, 8, 4, 6, 15, 11, 1, 10, 9, 3, 14, 5, 0, 12, 7],
    [1, 15, 13, 8, 10, 3, 7, 4, 12, 5, 6, 11, 0, 14, 9, 2],
    [7, 11, 4, 1, 9, 12, 14, 2, 0, 6, 10, 13, 15, 3, 5, 8],
    [2, 1, 14, 7, 4, 10, 8, 13, 15, 12, 9, 0, 3, 5, 6, 11]
  ]

  predicate IsBox(s: seq<seq<bv4>>) { |s| == 4 && forall i :: 0 <= i < 4 ==> |s[i]| == 16 }

  /** The first and the last of six bits select the row, the four in the middle the column. */
  function Select(s: seq<seq<bv4>>, v: nat): bv32
    requires IsBox(s) && v < 64
  {
    s[2 * (v / 32) + v % 2][v / 2 % 16] as bv32
  }

  function Selected(s: seq<seq<bv4>>, g: bv32): bv32
    requires IsBox(s)
  {
    Select(s, (g & 0x3f) as int)
  }

  function S1(g: bv32, k: bv32): bv32 { Selected(Table1, g ^ k) }
  function S2(g: bv32, k: bv32): bv32 { Selected(Table2, g ^ k) }
  function S3(g: bv32, k: bv32): bv32 { Selected(Table3, g ^ k) }
  function S4(g: bv32, k: bv32): bv32 { Selected(Table4, g ^ k) }
  function S5(g: bv32, k: bv32): bv32 { Selected(Table5, g ^ k) }
  function S6(g: bv32, k: bv32): bv32 { Selected(Table6, g ^ k) }
  function S7(g: bv32, k: bv32): bv32 { Selected(Table7, g ^ k) }
  function S8(g: bv32, k: bv32): bv32 { Selected(Table8, g ^ k) }

  /** The permutation P. */
  function P(x: bv32): bv32 {
    var h := Halves(x, 0);
    Word(
      Row8(h, 16, 7, 20, 21, 29, 12, 28, 17),
      Row8(h, 1, 15, 23, 26, 5, 18, 31, 10),
      Row8(h, 2, 8, 24, 14, 32, 27, 3, 9),
      Row8(h, 19, 13, 30, 6, 22, 11, 4, 25))
  }

  /** Eight selections of four bits, one after the other. */
  function Join(a: bv32, b: bv32, c: bv32, d: bv32, e: bv32, f: bv32, g: bv32, h: bv32): bv32 {
    (a << 28) | (b << 24) | (c << 20) | (d << 16) | (e << 12) | (f << 8) | (g << 4) | h
  }

  /** The cipher function f. */
  function Cipher(r: bv32, k: Groups): bv32 {
    var e := E(r);
    P(Join(S1(e.g1, k.g1), S2(e.g2, k.g2), S3(e.g3, k.g3), S4(e.g4, k.g4),
           S5(e.g5, k.g5), S6(e.g6, k.g6), S7(e.g7, k.g7), S8(e.g8, k.g8)))
  }

  /** Addition bit by bit, modulo 2. */
  function Plus(x: bv32, y: bv32): bv32 { x ^ y }

  /** The halves after `n` rounds. */
  function Rounds(ks: seq<Groups>, n: nat, h: Halves): Halves
    requires n <= |ks|
  {
    if n == 0 then h
    else
      var p := Rounds(ks, n - 1, h);
      Halves(p.r, Plus(p.l, Cipher(p.r, ks[n - 1])))
  }

  /** The sixteen rounds between the two permutations; the halves of the last one change places. */
  function Encipher(key: Halves, block: Halves): Halves {
    var h := Rounds(Schedule(key), 16, IP(block));
    InverseIP(Halves(h.r, h.l))
  }

  // ---------------------------------------------------------------------------
  // The key schedule
  // ---------------------------------------------------------------------------

  function Word28(a: bv32, b: bv32, c: bv32, d: bv32): bv32 { (a << 21) | (b << 14) | (c << 7) | d }

  /** Permuted choice 1. */
  function PC1(key: Halves): Halves {
    Halves(
      Word28(
        Row7(key, 57, 49, 41, 33, 25, 17, 9),
        Row7(key, 1, 58, 50, 42, 34, 26, 18),
        Row7(key, 10, 2, 59, 51, 43, 35, 27),
        Row7(key, 19, 11, 3, 60, 52, 44, 36)),
      Word28(
        Row7(key, 63, 55, 47, 39, 31, 23, 15),
        Row7(key, 7, 62, 54, 46, 38, 30, 22),
        Row7(key, 14, 6, 61, 53, 45, 37, 29),
        Row7(key, 21, 13, 5, 28, 20, 12, 4)))
  }

  /** Two words of 28 bits, with their bits numbered from 1 to 56, as two of 32: the last 8 bits of the second are 0. */
  function Together(cd: Halves): Halves {
    Halves((cd.l << 4) | ((cd.r >> 24) & 0xf), cd.r << 8)
  }

  /** Permuted choice 2. */
  function PC2(cd: Halves): Groups {
    var h := Together(cd);
    Groups(
      Row6(h, 14, 17, 11, 24, 1, 5),
      Row6(h, 3, 28, 15, 6, 21, 10),
      Row6(h, 23, 19, 12, 4, 26, 8),
      Row6(h, 16, 7, 27, 20, 13, 2),
      Row6(h, 41, 52, 31, 37, 47, 55),
      Row6(h, 30, 40, 51, 45, 33, 48),
      Row6(h, 44, 49, 39, 56, 34, 53),
      Row6(h, 46, 42, 50, 36, 29, 32))
  }

  /** How often both halves of the key are shifted before each round. */
  const Shifts: seq<nat> := [1, 1, 2, 2, 2, 2, 2, 2, 1, 2, 2, 2, 2, 2, 2, 1]

  /** Shifts a word of 28 bits left by one, the first bit to the end. */
  function ShiftOnce(c: bv32): bv32 { ((c << 1) & 0x0fff_fffe) | ((c >> 27) & 1) }

  function Shift(c: bv32, n: nat): bv32 { if n == 0 then c else ShiftOnce(Shift(c, n - 1)) }

  /** The subkeys from round `i` on, for the halves of the key before it. */
  function SubkeysFrom(i: nat, cd: Halves): (ks: seq<Groups>)
    requires i <= 16
    ensures |ks| == 16 - i
    decreases 16 - i
  {
    if i == 16 then []
    else
      var next := Halves(Shift(cd.l, Shifts[i]), Shift(cd.r, Shifts[i]));
      [PC2(next)] + SubkeysFrom(i + 1, next)
  }

  function Schedule(key: Halves): (ks: seq<Groups>)
    ensures |ks| == 16
  {
    SubkeysFrom(0, PC1(key))
  }

  // ---------------------------------------------------------------------------
  // Bytes
  // ---------------------------------------------------------------------------

  /** Eight bytes as 64 bits, the first byte in front. */
  function Block(b: seq<bv8>): Halves
    requires |b| == 8
  {
    Halves(Word(b[0] as bv32, b[1] as bv32, b[2] as bv32, b[3] as bv32),
           Word(b[4] as bv32, b[5] as bv32, b[6] as bv32, b[7] as bv32))
  }
}
