/** What lualib-src/lua-crypt.c computes is the Data Encryption Standard. The code keeps both halves rotated left by one
    bit, so that the six bits of each group lie together, and its boxes hold the standard's with the permutation P done. */
module DesProof {
  import opened Des
  import Std = DesStandard

  lemma InitialIsIP(p: Pair)
    ensures var s := Std.IP(Std.Halves(p.x, p.y));
      InitialPermutation(p) == Pair(RotateLeft(s.l), RotateLeft(s.r))
  {
  }

  lemma InverseLeft(h: Std.Halves)
    ensures Std.IP(Std.InverseIP(h)).l == h.l
  {
  }

  lemma InverseRight(h: Std.Halves)
    ensures Std.IP(Std.InverseIP(h)).r == h.r
  {
  }

  lemma FinalIsInverseIP(h: Std.Halves)
    ensures var s := Std.InverseIP(h); FinalPermutation(Pair(RotateLeft(h.l), RotateLeft(h.r))) == Pair(s.l, s.r)
  {
    var s := Std.InverseIP(h);
    InverseLeft(h);
    InverseRight(h);
    InitialIsIP(Pair(s.l, s.r));
    PermutationsInverse(Pair(s.l, s.r));
    hide Std.InverseIP, Std.IP, InitialPermutation, FinalPermutation, RotateLeft;
  }

  // ---------------------------------------------------------------------------
  // The boxes
  // ---------------------------------------------------------------------------

  /** The places of the four bits of a selection. */
  datatype Places = Places(p8: bv32, p4: bv32, p2: bv32, p1: bv32)

  function Spread(x: bv32, m: Places): bv32 {
    (if x & 8 != 0 then m.p8 else 0) | (if x & 4 != 0 then m.p4 else 0)
    | (if x & 2 != 0 then m.p2 else 0) | (if x & 1 != 0 then m.p1 else 0)
  }

  const M1 := Places(0x0100_0000, 0x0001_0000, 0x0000_0400, 0x0000_0004)
  const M2 := Places(0x0010_0000, 0x0000_0020, 0x8000_0000, 0x0000_8000)
  const M3 := Places(0x0000_0200, 0x0002_0000, 0x0000_0008, 0x0800_0000)
  const M4 := Places(0x0000_0080, 0x0000_2000, 0x0080_0000, 0x0000_0001)
  const M5 := Places(0x0200_0000, 0x0008_0000, 0x0000_0100, 0x4000_0000)
  const M6 := Places(0x2000_0000, 0x0000_0010, 0x0040_0000, 0x0000_4000)
  const M7 := Places(0x0000_0002, 0x0020_0000, 0x0000_0800, 0x0400_0000)
  const M8 := Places(0x1000_0000, 0x0000_0040, 0x0004_0000, 0x0000_1000)

  function At(row: seq<bv4>, c: nat, m: Places): bv32
    requires c < |row|
  {
    Spread(row[c] as bv32, m)
  }

  /** Eight columns of two rows, in turns. */
  function Columns(a: seq<bv4>, b: seq<bv4>, c: nat, m: Places): (r: seq<bv32>)
    requires |a| == |b| == 16 && c <= 8
    ensures |r| == 16
  {
    [At(a, c, m), At(b, c, m), At(a, c + 1, m), At(b, c + 1, m), At(a, c + 2, m), At(b, c + 2, m),
     At(a, c + 3, m), At(b, c + 3, m), At(a, c + 4, m), At(b, c + 4, m), At(a, c + 5, m), At(b, c + 5, m),
     At(a, c + 6, m), At(b, c + 6, m), At(a, c + 7, m), At(b, c + 7, m)]
  }

  function Table(s: seq<seq<bv4>>, m: Places): (r: seq<bv32>)
    requires Std.IsBox(s)
    ensures |r| == 64
  {
    Columns(s[0], s[1], 0, m) + Columns(s[0], s[1], 8, m) + Columns(s[2], s[3], 0, m) + Columns(s[2], s[3], 8, m)
  }

  lemma IsTable1() ensures SB1 == Table(Std.Table1, M1) { hide Std.IsBox; }
  lemma IsTable2() ensures SB2 == Table(Std.Table2, M2) { }
  lemma IsTable3() ensures SB3 == Table(Std.Table3, M3) { }
  lemma IsTable4() ensures SB4 == Table(Std.Table4, M4) { }
  lemma IsTable5() ensures SB5 == Table(Std.Table5, M5) { }
  lemma IsTable6() ensures SB6 == Table(Std.Table6, M6) { }
  lemma IsTable7() ensures SB7 == Table(Std.Table7, M7) { }
  lemma IsTable8() ensures SB8 == Table(Std.Table8, M8) { }

  lemma ColumnAt(a: seq<bv4>, b: seq<bv4>, c: nat, m: Places, k: nat)
    requires |a| == |b| == 16 && c <= 8 && k < 8
    ensures Columns(a, b, c, m)[2 * k] == At(a, c + k, m) && Columns(a, b, c, m)[2 * k + 1] == At(b, c + k, m)
  {
    hide At;
    assert k == 0 || k == 1 || k == 2 || k == 3 || k == 4 || k == 5 || k == 6 || k == 7;
  }

  /** Entry `v` of a box is in column `8 * e + k` of row `2 * h + last`. */
  function Place(h: nat, e: nat, k: nat, last: nat): nat { 32 * h + 16 * e + 2 * k + last }

  lemma RowColumn(h: nat, e: nat, k: nat, last: nat)
    requires h < 2 && e < 2 && k < 8 && last < 2
    ensures var v := Place(h, e, k, last); v < 64 && 2 * (v / 32) + v % 2 == 2 * h + last && v / 2 % 16 == 8 * e + k
  {
    var v, rest := Place(h, e, k, last), 8 * e + k;
    assert v == 2 * (16 * h + rest) + last;
    assert v / 2 == 16 * h + rest && v % 2 == last;
    assert v / 32 == h && (16 * h + rest) % 16 == rest;
  }

  lemma SamePlace(v: nat)
    requires v < 64
    ensures v == Place(v / 32, v / 16 % 2, v / 2 % 8, v % 2)
  {
  }

  lemma TableQuarter(s: seq<seq<bv4>>, m: Places, h: nat, e: nat, j: nat)
    requires Std.IsBox(s) && h < 2 && e < 2 && j < 16
    ensures Table(s, m)[32 * h + 16 * e + j] == Columns(s[2 * h], s[2 * h + 1], 8 * e, m)[j]
  {
    hide Columns;
    assert h == 0 || h == 1;
    assert e == 0 || e == 1;
  }

  lemma EvenRow(s: seq<seq<bv4>>, m: Places, h: nat, e: nat, k: nat)
    requires Std.IsBox(s) && h < 2 && e < 2 && k < 8
    ensures Place(h, e, k, 0) < 64 && Table(s, m)[Place(h, e, k, 0)] == Spread(s[2 * h][8 * e + k] as bv32, m)
  {
    hide Columns, Spread, Table;
    TableQuarter(s, m, h, e, 2 * k);
    ColumnAt(s[2 * h], s[2 * h + 1], 8 * e, m, k);
  }

  lemma OddRow(s: seq<seq<bv4>>, m: Places, h: nat, e: nat, k: nat)
    requires Std.IsBox(s) && h < 2 && e < 2 && k < 8
    ensures Place(h, e, k, 1) < 64 && Table(s, m)[Place(h, e, k, 1)] == Spread(s[2 * h + 1][8 * e + k] as bv32, m)
  {
    hide Columns, Spread, Table;
    TableQuarter(s, m, h, e, 2 * k + 1);
    ColumnAt(s[2 * h], s[2 * h + 1], 8 * e, m, k);
  }

  lemma SelectAt(s: seq<seq<bv4>>, v: nat, r: nat, c: nat)
    requires Std.IsBox(s) && v < 64 && r < 4 && c < 16 && 2 * (v / 32) + v % 2 == r && v / 2 % 16 == c
    ensures Std.Select(s, v) == s[r][c] as bv32
  {
  }

  lemma PlacedAt(s: seq<seq<bv4>>, m: Places, h: nat, e: nat, k: nat, last: nat)
    requires Std.IsBox(s) && h < 2 && e < 2 && k < 8 && last < 2
    ensures var v := Place(h, e, k, last); v < 64 && Table(s, m)[v] == Spread(Std.Select(s, v), m)
  {
    hide Columns, Spread, Table, Place, Std.Select;
    RowColumn(h, e, k, last);
    SelectAt(s, Place(h, e, k, last), 2 * h + last, 8 * e + k);
    if last == 0 { EvenRow(s, m, h, e, k); } else { OddRow(s, m, h, e, k); }
  }

  lemma TableAt(s: seq<seq<bv4>>, m: Places, v: nat)
    requires Std.IsBox(s) && v < 64
    ensures Table(s, m)[v] == Spread(Std.Select(s, v), m)
  {
    hide Columns, Spread, Table, Std.Select, Place, Std.IsBox;
    SamePlace(v);
    PlacedAt(s, m, v / 32, v / 16 % 2, v / 2 % 8, v % 2);
  }

  // ---------------------------------------------------------------------------
  // The permutation P
  // ---------------------------------------------------------------------------

  /** The permutation P, and the rotation. */
  function Permuted(x: bv32): bv32 { RotateLeft(Std.P(x)) }

  lemma Spread1(x: bv32) requires x & 0xf == x ensures Permuted(x << 28) == Spread(x, M1) { }
  lemma Spread2(x: bv32) requires x & 0xf == x ensures Permuted(x << 24) == Spread(x, M2) { }
  lemma Spread3(x: bv32) requires x & 0xf == x ensures Permuted(x << 20) == Spread(x, M3) { }
  lemma Spread4(x: bv32) requires x & 0xf == x ensures Permuted(x << 16) == Spread(x, M4) { }
  lemma Spread5(x: bv32) requires x & 0xf == x ensures Permuted(x << 12) == Spread(x, M5) { }
  lemma Spread6(x: bv32) requires x & 0xf == x ensures Permuted(x << 8) == Spread(x, M6) { }
  lemma Spread7(x: bv32) requires x & 0xf == x ensures Permuted(x << 4) == Spread(x, M7) { }
  lemma Spread8(x: bv32) requires x & 0xf == x ensures Permuted(x) == Spread(x, M8) { }

  lemma PXor(x: bv32, y: bv32)
    ensures Std.P(x ^ y) == Std.P(x) ^ Std.P(y)
  {
  }

  lemma RotateXor(x: bv32, y: bv32)
    ensures RotateLeft(x ^ y) == RotateLeft(x) ^ RotateLeft(y)
  {
  }

  lemma RotatedXor(x: bv32, y: bv32)
    ensures RotateLeft(Std.P(x ^ y)) == RotateLeft(Std.P(x)) ^ RotateLeft(Std.P(y))
  {
    hide *;
    PXor(x, y);
    RotateXor(Std.P(x), Std.P(y));
  }

  lemma PermutedXor(x: bv32, y: bv32)
    ensures Permuted(Xor(x, y)) == Xor(Permuted(x), Permuted(y))
  {
    hide Std.P, RotateLeft;
    RotatedXor(x, y);
  }

  lemma PermutedXor4(a: bv32, b: bv32, c: bv32, d: bv32)
    ensures Permuted(Xor4(a, b, c, d)) == Xor4(Permuted(a), Permuted(b), Permuted(c), Permuted(d))
  {
    hide Permuted, Xor;
    PermutedXor(a, b);
    PermutedXor(Xor(a, b), c);
    PermutedXor(Xor(Xor(a, b), c), d);
  }

  lemma Disjoint(a: bv32, b: bv32, c: bv32, d: bv32, e: bv32, f: bv32, g: bv32, h: bv32)
    requires a & 0xf == a && b & 0xf == b && c & 0xf == c && d & 0xf == d
    requires e & 0xf == e && f & 0xf == f && g & 0xf == g && h & 0xf == h
    ensures Std.Join(a, b, c, d, e, f, g, h)
      == Xor(Xor4(h, f << 8, d << 16, b << 24), Xor4(g << 4, e << 12, c << 20, a << 28))
  {
  }

  /** All eight selections, each at its place, permuted and rotated. */
  lemma AllSpread(a: bv32, b: bv32, c: bv32, d: bv32, e: bv32, f: bv32, g: bv32, h: bv32)
    requires a & 0xf == a && b & 0xf == b && c & 0xf == c && d & 0xf == d
    requires e & 0xf == e && f & 0xf == f && g & 0xf == g && h & 0xf == h
    ensures Permuted(Std.Join(a, b, c, d, e, f, g, h))
      == Xor(Xor4(Spread(h, M8), Spread(f, M6), Spread(d, M4), Spread(b, M2)),
             Xor4(Spread(g, M7), Spread(e, M5), Spread(c, M3), Spread(a, M1)))
  {
    hide *;
    Disjoint(a, b, c, d, e, f, g, h);
    Spread1(a); Spread2(b); Spread3(c); Spread4(d); Spread5(e); Spread6(f); Spread7(g); Spread8(h);
    PermutedXor4(h, f << 8, d << 16, b << 24);
    PermutedXor4(g << 4, e << 12, c << 20, a << 28);
    PermutedXor(Xor4(h, f << 8, d << 16, b << 24), Xor4(g << 4, e << 12, c << 20, a << 28));
  }

  // ---------------------------------------------------------------------------
  // The cipher function
  // ---------------------------------------------------------------------------

  /** The groups of a subkey as the code keeps them: those of odd number in one word, those of even number in another. */
  function KeyGroups(k0: bv32, k1: bv32): Std.Groups {
    Std.Groups((k1 >> 24) & 0x3f, (k0 >> 24) & 0x3f, (k1 >> 16) & 0x3f, (k0 >> 16) & 0x3f,
               (k1 >> 8) & 0x3f, (k0 >> 8) & 0x3f, k1 & 0x3f, k0 & 0x3f)
  }

  /** In a rotated half the groups of E lie where the code looks for them. */
  lemma EvenGroups(r: bv32)
    ensures var x, e := RotateLeft(r), Std.E(r);
      x & 0x3f == e.g8 && (x >> 8) & 0x3f == e.g6 && (x >> 16) & 0x3f == e.g4 && (x >> 24) & 0x3f == e.g2
  {
  }

  lemma OddGroups(r: bv32)
    ensures var x, e := Turn(RotateLeft(r)), Std.E(r);
      x & 0x3f == e.g7 && (x >> 8) & 0x3f == e.g5 && (x >> 16) & 0x3f == e.g3 && (x >> 24) & 0x3f == e.g1
  {
  }

  /** So a subkey meets the groups that it is meant for. */
  lemma EvenMeet(k0: bv32, k1: bv32, r: bv32)
    ensures var t, e, k := k0 ^ RotateLeft(r), Std.E(r), KeyGroups(k0, k1);
      && t & 0x3f == (e.g8 ^ k.g8) & 0x3f && (t >> 8) & 0x3f == (e.g6 ^ k.g6) & 0x3f
      && (t >> 16) & 0x3f == (e.g4 ^ k.g4) & 0x3f && (t >> 24) & 0x3f == (e.g2 ^ k.g2) & 0x3f
  {
    hide Std.E, RotateLeft;
    EvenGroups(r);
  }

  lemma OddMeet(k0: bv32, k1: bv32, r: bv32)
    ensures var u, e, k := k1 ^ Turn(RotateLeft(r)), Std.E(r), KeyGroups(k0, k1);
      && u & 0x3f == (e.g7 ^ k.g7) & 0x3f && (u >> 8) & 0x3f == (e.g5 ^ k.g5) & 0x3f
      && (u >> 16) & 0x3f == (e.g3 ^ k.g3) & 0x3f && (u >> 24) & 0x3f == (e.g1 ^ k.g1) & 0x3f
  {
    hide Std.E, RotateLeft, Turn;
    OddGroups(r);
  }

  lemma BoxSelects(table: seq<bv32>, s: seq<seq<bv4>>, m: Places, t: bv32, g: bv32)
    requires Std.IsBox(s) && table == Table(s, m) && t & 0x3f == g & 0x3f
    ensures Box(table, t) == Spread(Std.Selected(s, g), m) && Std.Selected(s, g) & 0xf == Std.Selected(s, g)
  {
    var v := (t & 0x3f) as int;
    Nibble4(s[2 * (v / 32) + v % 2][v / 2 % 16]);
    hide Table, Spread;
    TableAt(s, m, v);
  }

  lemma Nibble4(x: bv4)
    ensures (x as bv32) & 0xf == x as bv32
  {
  }

  lemma Box1(t: bv32, g: bv32, k: bv32)
    requires t & 0x3f == (g ^ k) & 0x3f
    ensures Box(SB1, t) == Spread(Std.S1(g, k), M1) && Std.S1(g, k) & 0xf == Std.S1(g, k)
  {
    IsTable1();
    BoxSelects(SB1, Std.Table1, M1, t, g ^ k);
    hide Table, Spread, Box, Std.Selected;
  }

  lemma Box2(t: bv32, g: bv32, k: bv32)
    requires t & 0x3f == (g ^ k) & 0x3f
    ensures Box(SB2, t) == Spread(Std.S2(g, k), M2) && Std.S2(g, k) & 0xf == Std.S2(g, k)
  {
    IsTable2();
    BoxSelects(SB2, Std.Table2, M2, t, g ^ k);
    hide Table, Spread, Box, Std.Selected;
  }

  lemma Box3(t: bv32, g: bv32, k: bv32)
    requires t & 0x3f == (g ^ k) & 0x3f
    ensures Box(SB3, t) == Spread(Std.S3(g, k), M3) && Std.S3(g, k) & 0xf == Std.S3(g, k)
  {
    IsTable3();
    BoxSelects(SB3, Std.Table3, M3, t, g ^ k);
    hide Table, Spread, Box, Std.Selected;
  }

  lemma Box4(t: bv32, g: bv32, k: bv32)
    requires t & 0x3f == (g ^ k) & 0x3f
    ensures Box(SB4, t) == Spread(Std.S4(g, k), M4) && Std.S4(g, k) & 0xf == Std.S4(g, k)
  {
    IsTable4();
    BoxSelects(SB4, Std.Table4, M4, t, g ^ k);
    hide Table, Spread, Box, Std.Selected;
  }

  lemma Box5(t: bv32, g: bv32, k: bv32)
    requires t & 0x3f == (g ^ k) & 0x3f
    ensures Box(SB5, t) == Spread(Std.S5(g, k), M5) && Std.S5(g, k) & 0xf == Std.S5(g, k)
  {
    IsTable5();
    BoxSelects(SB5, Std.Table5, M5, t, g ^ k);
    hide Table, Spread, Box, Std.Selected;
  }

  lemma Box6(t: bv32, g: bv32, k: bv32)
    requires t & 0x3f == (g ^ k) & 0x3f
    ensures Box(SB6, t) == Spread(Std.S6(g, k), M6) && Std.S6(g, k) & 0xf == Std.S6(g, k)
  {
    IsTable6();
    BoxSelects(SB6, Std.Table6, M6, t, g ^ k);
    hide Table, Spread, Box, Std.Selected;
  }

  lemma Box7(t: bv32, g: bv32, k: bv32)
    requires t & 0x3f == (g ^ k) & 0x3f
    ensures Box(SB7, t) == Spread(Std.S7(g, k), M7) && Std.S7(g, k) & 0xf == Std.S7(g, k)
  {
    IsTable7();
    BoxSelects(SB7, Std.Table7, M7, t, g ^ k);
    hide Table, Spread, Box, Std.Selected;
  }

  lemma Box8(t: bv32, g: bv32, k: bv32)
    requires t & 0x3f == (g ^ k) & 0x3f
    ensures Box(SB8, t) == Spread(Std.S8(g, k), M8) && Std.S8(g, k) & 0xf == Std.S8(g, k)
  {
    IsTable8();
    BoxSelects(SB8, Std.Table8, M8, t, g ^ k);
    hide Table, Spread, Box, Std.Selected;
  }

  /** The four selections of even number, permuted and rotated. */
  lemma EvenAt(t: bv32, e: Std.Groups, k: Std.Groups)
    requires t & 0x3f == (e.g8 ^ k.g8) & 0x3f && (t >> 8) & 0x3f == (e.g6 ^ k.g6) & 0x3f
    requires (t >> 16) & 0x3f == (e.g4 ^ k.g4) & 0x3f && (t >> 24) & 0x3f == (e.g2 ^ k.g2) & 0x3f
    ensures EvenBoxes(t) == Xor4(Spread(Std.S8(e.g8, k.g8), M8), Spread(Std.S6(e.g6, k.g6), M6),
                                 Spread(Std.S4(e.g4, k.g4), M4), Spread(Std.S2(e.g2, k.g2), M2))
  {
    hide Xor4, Spread, Box, Std.S8, Std.S6, Std.S4, Std.S2;
    Box8(t, e.g8, k.g8);
    Box6(t >> 8, e.g6, k.g6);
    Box4(t >> 16, e.g4, k.g4);
    Box2(t >> 24, e.g2, k.g2);
  }

  lemma OddAt(t: bv32, e: Std.Groups, k: Std.Groups)
    requires t & 0x3f == (e.g7 ^ k.g7) & 0x3f && (t >> 8) & 0x3f == (e.g5 ^ k.g5) & 0x3f
    requires (t >> 16) & 0x3f == (e.g3 ^ k.g3) & 0x3f && (t >> 24) & 0x3f == (e.g1 ^ k.g1) & 0x3f
    ensures OddBoxes(t) == Xor4(Spread(Std.S7(e.g7, k.g7), M7), Spread(Std.S5(e.g5, k.g5), M5),
                                Spread(Std.S3(e.g3, k.g3), M3), Spread(Std.S1(e.g1, k.g1), M1))
  {
    hide Xor4, Spread, Box, Std.S7, Std.S5, Std.S3, Std.S1;
    Box7(t, e.g7, k.g7);
    Box5(t >> 8, e.g5, k.g5);
    Box3(t >> 16, e.g3, k.g3);
    Box1(t >> 24, e.g1, k.g1);
  }

  lemma AllSmall(e: Std.Groups, k: Std.Groups)
    ensures Std.S1(e.g1, k.g1) & 0xf == Std.S1(e.g1, k.g1) && Std.S2(e.g2, k.g2) & 0xf == Std.S2(e.g2, k.g2)
    ensures Std.S3(e.g3, k.g3) & 0xf == Std.S3(e.g3, k.g3) && Std.S4(e.g4, k.g4) & 0xf == Std.S4(e.g4, k.g4)
    ensures Std.S5(e.g5, k.g5) & 0xf == Std.S5(e.g5, k.g5) && Std.S6(e.g6, k.g6) & 0xf == Std.S6(e.g6, k.g6)
    ensures Std.S7(e.g7, k.g7) & 0xf == Std.S7(e.g7, k.g7) && Std.S8(e.g8, k.g8) & 0xf == Std.S8(e.g8, k.g8)
  {
    hide *;
    Box1(e.g1 ^ k.g1, e.g1, k.g1);
    Box2(e.g2 ^ k.g2, e.g2, k.g2);
    Box3(e.g3 ^ k.g3, e.g3, k.g3);
    Box4(e.g4 ^ k.g4, e.g4, k.g4);
    Box5(e.g5 ^ k.g5, e.g5, k.g5);
    Box6(e.g6 ^ k.g6, e.g6, k.g6);
    Box7(e.g7 ^ k.g7, e.g7, k.g7);
    Box8(e.g8 ^ k.g8, e.g8, k.g8);
  }

  function Selections(e: Std.Groups, k: Std.Groups): bv32 {
    Std.Join(Std.S1(e.g1, k.g1), Std.S2(e.g2, k.g2), Std.S3(e.g3, k.g3), Std.S4(e.g4, k.g4),
             Std.S5(e.g5, k.g5), Std.S6(e.g6, k.g6), Std.S7(e.g7, k.g7), Std.S8(e.g8, k.g8))
  }

  lemma SelectionsSpread(e: Std.Groups, k: Std.Groups)
    ensures Permuted(Selections(e, k)) ==
      Xor(Xor4(Spread(Std.S8(e.g8, k.g8), M8), Spread(Std.S6(e.g6, k.g6), M6),
               Spread(Std.S4(e.g4, k.g4), M4), Spread(Std.S2(e.g2, k.g2), M2)),
          Xor4(Spread(Std.S7(e.g7, k.g7), M7), Spread(Std.S5(e.g5, k.g5), M5),
               Spread(Std.S3(e.g3, k.g3), M3), Spread(Std.S1(e.g1, k.g1), M1)))
  {
    hide Xor, Xor4, Spread, Permuted, Std.Join;
    hide Std.S1, Std.S2, Std.S3, Std.S4, Std.S5, Std.S6, Std.S7, Std.S8;
    AllSmall(e, k);
    AllSpread(Std.S1(e.g1, k.g1), Std.S2(e.g2, k.g2), Std.S3(e.g3, k.g3), Std.S4(e.g4, k.g4),
              Std.S5(e.g5, k.g5), Std.S6(e.g6, k.g6), Std.S7(e.g7, k.g7), Std.S8(e.g8, k.g8));
  }

  lemma CipherPermutes(r: bv32, k: Std.Groups)
    ensures RotateLeft(Std.Cipher(r, k)) == Permuted(Selections(Std.E(r), k))
  {
    hide RotateLeft, Std.P, Std.Join, Std.E;
    hide Std.S1, Std.S2, Std.S3, Std.S4, Std.S5, Std.S6, Std.S7, Std.S8;
  }

  lemma MixParts(k0: bv32, k1: bv32, x: bv32)
    ensures Mix(k0, k1, x) == Xor(EvenBoxes(k0 ^ x), OddBoxes(k1 ^ Turn(x)))
  {
    hide Xor, Turn, EvenBoxes, OddBoxes;
  }

  /** What the code mixes in is the cipher function of the standard. */
  lemma MixIsCipher(k0: bv32, k1: bv32, r: bv32)
    ensures Mix(k0, k1, RotateLeft(r)) == RotateLeft(Std.Cipher(r, KeyGroups(k0, k1)))
  {
    hide *;
    var e, k := Std.E(r), KeyGroups(k0, k1);
    MixParts(k0, k1, RotateLeft(r));
    EvenMeet(k0, k1, r);
    OddMeet(k0, k1, r);
    EvenAt(k0 ^ RotateLeft(r), e, k);
    OddAt(k1 ^ Turn(RotateLeft(r)), e, k);
    SelectionsSpread(e, k);
    CipherPermutes(r, k);
  }

  // ---------------------------------------------------------------------------
  // The key schedule
  // ---------------------------------------------------------------------------

  function SpreadLeft(x: bv32): bv32 {
    (x & 1) | ((x & 2) << 7) | ((x & 4) << 14) | ((x & 8) << 21)
  }

  function SpreadRight(x: bv32): bv32 {
    ((x & 1) << 24) | ((x & 2) << 15) | ((x & 4) << 6) | ((x & 8) >> 3)
  }

  lemma Sixteen(x: bv32)
    ensures var n := x & 0xf;
      n == 0 || n == 1 || n == 2 || n == 3 || n == 4 || n == 5 || n == 6 || n == 7
      || n == 8 || n == 9 || n == 10 || n == 11 || n == 12 || n == 13 || n == 14 || n == 15
  {
  }

  lemma LeftNibble(x: bv32)
    ensures Nibble(LHs, x) == SpreadLeft(x)
  {
    Sixteen(x);
  }

  lemma RightNibble(x: bv32)
    ensures Nibble(RHs, x) == SpreadRight(x)
  {
    Sixteen(x);
  }

  function ChoiceLeft(x: bv32): bv32 {
    ((SpreadLeft(x) << 3) | (SpreadLeft(x >> 8) << 2) | (SpreadLeft(x >> 16) << 1) | SpreadLeft(x >> 24)
     | (SpreadLeft(x >> 5) << 7) | (SpreadLeft(x >> 13) << 6) | (SpreadLeft(x >> 21) << 5) | (SpreadLeft(x >> 29) << 4))
    & 0x0fff_ffff
  }

  function ChoiceRight(y: bv32): bv32 {
    ((SpreadRight(y >> 1) << 3) | (SpreadRight(y >> 9) << 2) | (SpreadRight(y >> 17) << 1) | SpreadRight(y >> 25)
     | (SpreadRight(y >> 4) << 7) | (SpreadRight(y >> 12) << 6) | (SpreadRight(y >> 20) << 5)
     | (SpreadRight(y >> 28) << 4))
    & 0x0fff_ffff
  }

  lemma LeftIsChoice(x: bv32)
    ensures KeyLeft(x) == ChoiceLeft(x)
  {
    hide Nibble, SpreadLeft;
    LeftNibble(x); LeftNibble(x >> 8); LeftNibble(x >> 16); LeftNibble(x >> 24);
    LeftNibble(x >> 5); LeftNibble(x >> 13); LeftNibble(x >> 21); LeftNibble(x >> 29);
  }

  lemma RightIsChoice(y: bv32)
    ensures KeyRight(y) == ChoiceRight(y)
  {
    hide Nibble, SpreadRight;
    RightNibble(y >> 1); RightNibble(y >> 9); RightNibble(y >> 17); RightNibble(y >> 25);
    RightNibble(y >> 4); RightNibble(y >> 12); RightNibble(y >> 20); RightNibble(y >> 28);
  }

  lemma LeftIsPC1(p: Pair)
    ensures ChoiceLeft(SwapBits(p).x) == Std.PC1(Std.Halves(p.x, p.y)).l
  {
  }

  lemma RightIsPC1(p: Pair)
    ensures ChoiceRight(SwapBits(p).y) == Std.PC1(Std.Halves(p.x, p.y)).r
  {
  }

  lemma ShiftedOnce(c: bv32)
    requires c & 0x0fff_ffff == c
    ensures ((c << 1) | (c >> 27)) & 0x0fff_ffff == Std.ShiftOnce(c)
  {
  }

  lemma StaysShort(c: bv32)
    ensures Std.ShiftOnce(c) & 0x0fff_ffff == Std.ShiftOnce(c)
  {
  }

  lemma ShiftedTwice(c: bv32)
    requires c & 0x0fff_ffff == c
    ensures ((c << 2) | (c >> 26)) & 0x0fff_ffff == Std.ShiftOnce(Std.ShiftOnce(c))
  {
  }

  lemma ShiftTwice(c: bv32)
    ensures Std.Shift(c, 1) == Std.ShiftOnce(c) && Std.Shift(c, 2) == Std.ShiftOnce(Std.ShiftOnce(c))
  {
    hide Std.ShiftOnce;
    assert Std.Shift(c, 0) == c;
    assert Std.Shift(c, 1) == Std.ShiftOnce(Std.Shift(c, 0));
  }

  predicate Once(i: nat) { i < 2 || i == 8 || i == 15 }

  lemma HowOften(i: nat)
    requires i < 16
    ensures Std.Shifts[i] == if Once(i) then 1 else 2
  {
  }

  lemma RotateIsShift(c: bv32, i: nat)
    requires i < 16 && c & 0x0fff_ffff == c
    ensures RotateKey(c, i) == Std.Shift(c, Std.Shifts[i]) && RotateKey(c, i) & 0x0fff_ffff == RotateKey(c, i)
  {
    HowOften(i);
    hide Std.Shift, Std.ShiftOnce;
    ShiftTwice(c);
    StaysShort(c);
    StaysShort(Std.ShiftOnce(c));
    if Once(i) { ShiftedOnce(c); } else { ShiftedTwice(c); }
  }

  lemma Groups24(c: bv32, d: bv32)
    ensures var k, s := Std.PC2(Std.Halves(c, d)), Subkey0(c, d); (s >> 24) & 0x3f == k.g2 && (s >> 16) & 0x3f == k.g4
  {
  }

  lemma Group6(c: bv32, d: bv32)
    ensures var k, s := Std.PC2(Std.Halves(c, d)), Subkey0(c, d); (s >> 8) & 0x3f == k.g6
  {
  }

  lemma Group8(c: bv32, d: bv32)
    ensures var k, s := Std.PC2(Std.Halves(c, d)), Subkey0(c, d); s & 0x3f == k.g8
  {
  }

  lemma Groups13(c: bv32, d: bv32)
    ensures var k, s := Std.PC2(Std.Halves(c, d)), Subkey1(c, d); (s >> 24) & 0x3f == k.g1 && (s >> 16) & 0x3f == k.g3
  {
  }

  lemma Group5(c: bv32, d: bv32)
    ensures var k, s := Std.PC2(Std.Halves(c, d)), Subkey1(c, d); (s >> 8) & 0x3f == k.g5
  {
  }

  lemma Group7(c: bv32, d: bv32)
    ensures var k, s := Std.PC2(Std.Halves(c, d)), Subkey1(c, d); s & 0x3f == k.g7
  {
  }

  lemma SubkeyIsPC2(c: bv32, d: bv32)
    ensures KeyGroups(Subkey0(c, d), Subkey1(c, d)) == Std.PC2(Std.Halves(c, d))
  {
    hide Subkey0, Subkey1, Std.PC2;
    Groups24(c, d);
    Group6(c, d);
    Group8(c, d);
    Groups13(c, d);
    Group5(c, d);
    Group7(c, d);
  }

  /** Two subkey words of the code for each subkey of the standard. */
  ghost predicate Matches(sk: seq<bv32>, ks: seq<Std.Groups>) {
    |sk| == 2 * |ks| && forall j :: 0 <= j < |ks| ==> KeyGroups(sk[2 * j], sk[2 * j + 1]) == ks[j]
  }

  lemma MatchesMore(k0: bv32, k1: bv32, sk: seq<bv32>, k: Std.Groups, ks: seq<Std.Groups>)
    requires KeyGroups(k0, k1) == k && Matches(sk, ks)
    ensures Matches([k0, k1] + sk, [k] + ks)
  {
    hide KeyGroups;
    var sk', ks' := [k0, k1] + sk, [k] + ks;
    forall j | 0 <= j < |ks'| ensures KeyGroups(sk'[2 * j], sk'[2 * j + 1]) == ks'[j] {
      if j > 0 { assert sk'[2 * j] == sk[2 * (j - 1)] && sk'[2 * j + 1] == sk[2 * (j - 1) + 1]; }
    }
  }

  predicate Short(c: bv32) { c & 0x0fff_ffff == c }

  lemma CodeKeys(i: nat, c: bv32, d: bv32)
    requires i < 16
    ensures var c', d' := RotateKey(c, i), RotateKey(d, i);
      SubkeysFrom(i, c, d) == [Subkey0(c', d'), Subkey1(c', d')] + SubkeysFrom(i + 1, c', d')
  {
    hide RotateKey, Subkey0, Subkey1;
  }

  lemma StandardKeys(i: nat, cd: Std.Halves)
    requires i < 16
    ensures var next := Std.Halves(Std.Shift(cd.l, Std.Shifts[i]), Std.Shift(cd.r, Std.Shifts[i]));
      Std.SubkeysFrom(i, cd) == [Std.PC2(next)] + Std.SubkeysFrom(i + 1, next)
  {
    hide Std.Shift, Std.PC2;
  }

  lemma RotateShort(c: bv32, i: nat)
    requires i < 16 && Short(c)
    ensures RotateKey(c, i) == Std.Shift(c, Std.Shifts[i]) && Short(RotateKey(c, i))
  {
    hide RotateKey, Std.Shift;
    RotateIsShift(c, i);
  }

  lemma {:induction false} SubkeysMatch(i: nat, c: bv32, d: bv32)
    requires i <= 16 && Short(c) && Short(d)
    ensures Matches(SubkeysFrom(i, c, d), Std.SubkeysFrom(i, Std.Halves(c, d)))
    decreases 16 - i
  {
    if i == 16 {
      NothingMatches();
    } else {
      hide *;
      RotateShort(c, i);
      RotateShort(d, i);
      var c', d' := RotateKey(c, i), RotateKey(d, i);
      CodeKeys(i, c, d);
      StandardKeys(i, Std.Halves(c, d));
      SubkeysMatch(i + 1, c', d');
      SubkeyIsPC2(c', d');
      MatchesMore(Subkey0(c', d'), Subkey1(c', d'), SubkeysFrom(i + 1, c', d'),
                  Std.PC2(Std.Halves(c', d')), Std.SubkeysFrom(i + 1, Std.Halves(c', d')));
    }
  }

  lemma NothingMatches()
    ensures Matches([], [])
  {
  }

  lemma ChoiceShort(x: bv32, y: bv32)
    ensures Short(ChoiceLeft(x)) && Short(ChoiceRight(y))
  {
    hide SpreadLeft, SpreadRight;
  }

  lemma ChoiceIsPC1(p: Pair)
    ensures var q := SwapBits(p);
      && Std.PC1(Std.Halves(p.x, p.y)) == Std.Halves(KeyLeft(q.x), KeyRight(q.y))
      && Short(KeyLeft(q.x)) && Short(KeyRight(q.y))
  {
    hide *;
    var q := SwapBits(p);
    LeftIsChoice(q.x);
    RightIsChoice(q.y);
    ChoiceShort(q.x, q.y);
    LeftIsPC1(p);
    RightIsPC1(p);
  }

  lemma KeyMatches(key: seq<bv8>)
    requires |key| == 8
    ensures Matches(KeySchedule(key), Std.Schedule(Std.Block(key)))
  {
    hide Matches, SwapBits, KeyLeft, KeyRight, SubkeysFrom, GetUint32, Std.PC1, Std.SubkeysFrom, Std.Block;
    var p := Pair(GetUint32(key, 0), GetUint32(key, 4));
    var q := SwapBits(p);
    WordsOfBlock(key);
    ChoiceIsPC1(p);
    SubkeysMatch(0, KeyLeft(q.x), KeyRight(q.y));
  }

  // ---------------------------------------------------------------------------
  // Blocks and texts
  // ---------------------------------------------------------------------------

  function Rotated(h: Std.Halves): Pair { Pair(RotateLeft(h.l), RotateLeft(h.r)) }

  lemma XorRotated(x: bv32, y: bv32)
    ensures Xor(RotateLeft(x), RotateLeft(y)) == RotateLeft(Std.Plus(x, y))
  {
    hide RotateLeft;
    RotateXor(x, y);
  }

  function Round(h: Std.Halves, k: Std.Groups): Std.Halves {
    Std.Halves(h.r, Std.Plus(h.l, Std.Cipher(h.r, k)))
  }

  lemma DoubleIsTwoRounds(k0: bv32, k1: bv32, k2: bv32, k3: bv32, h: Std.Halves)
    ensures Double(k0, k1, k2, k3, Rotated(h)) == Rotated(Round(Round(h, KeyGroups(k0, k1)), KeyGroups(k2, k3)))
  {
    hide RotateLeft, KeyGroups, Xor, Mix, Std.Cipher, Std.Plus;
    var r := Std.Plus(h.l, Std.Cipher(h.r, KeyGroups(k0, k1)));
    MixIsCipher(k0, k1, h.r);
    XorRotated(h.l, Std.Cipher(h.r, KeyGroups(k0, k1)));
    MixIsCipher(k2, k3, r);
    XorRotated(h.r, Std.Cipher(r, KeyGroups(k2, k3)));
  }

  lemma RoundKeys(sk: seq<bv32>, ks: seq<Std.Groups>, n: nat)
    requires |sk| == 32 && |ks| == 16 && Matches(sk, ks) && 1 <= n <= 8
    ensures KeyGroups(sk[4 * n - 4], sk[4 * n - 3]) == ks[2 * n - 2]
    ensures KeyGroups(sk[4 * n - 2], sk[4 * n - 1]) == ks[2 * n - 1]
  {
    hide KeyGroups;
    assert KeyGroups(sk[2 * (2 * n - 2)], sk[2 * (2 * n - 2) + 1]) == ks[2 * n - 2];
    assert KeyGroups(sk[2 * (2 * n - 1)], sk[2 * (2 * n - 1) + 1]) == ks[2 * n - 1];
  }

  lemma TwoRounds(ks: seq<Std.Groups>, n: nat, h: Std.Halves)
    requires |ks| == 16 && 1 <= n <= 8
    ensures Std.Rounds(ks, 2 * n, h) == Round(Round(Std.Rounds(ks, 2 * n - 2, h), ks[2 * n - 2]), ks[2 * n - 1])
  {
    hide Std.Cipher, Std.Plus;
  }

  lemma NoRounds(sk: seq<bv32>, ks: seq<Std.Groups>, h: Std.Halves)
    requires |sk| == 32 && |ks| == 16
    ensures Rounds(sk, 0, Rotated(h)) == Rotated(Std.Rounds(ks, 0, h))
  {
    hide Rotated;
  }

  lemma NextRounds(sk: seq<bv32>, ks: seq<Std.Groups>, n: nat, h: Std.Halves)
    requires |sk| == 32 && |ks| == 16 && Matches(sk, ks) && 1 <= n <= 8
    requires Rounds(sk, n - 1, Rotated(h)) == Rotated(Std.Rounds(ks, 2 * n - 2, h))
    ensures Rounds(sk, n, Rotated(h)) == Rotated(Std.Rounds(ks, 2 * n, h))
  {
    hide *;
    var q := Std.Rounds(ks, 2 * n - 2, h);
    var k0, k1, k2, k3 := sk[4 * n - 4], sk[4 * n - 3], sk[4 * n - 2], sk[4 * n - 1];
    RoundsNext(sk, n, Rotated(h));
    RoundKeys(sk, ks, n);
    TwoRounds(ks, n, h);
    DoubleIsTwoRounds(k0, k1, k2, k3, q);
    calc {
      Rounds(sk, n, Rotated(h));
      Double(k0, k1, k2, k3, Rotated(q));
      Rotated(Round(Round(q, KeyGroups(k0, k1)), KeyGroups(k2, k3)));
      Rotated(Std.Rounds(ks, 2 * n, h));
    }
  }

  lemma {:induction false} RoundsAreRounds(sk: seq<bv32>, ks: seq<Std.Groups>, n: nat, h: Std.Halves)
    requires |sk| == 32 && |ks| == 16 && Matches(sk, ks) && n <= 8
    ensures Rounds(sk, n, Rotated(h)) == Rotated(Std.Rounds(ks, 2 * n, h))
  {
    hide *;
    if n == 0 {
      NoRounds(sk, ks, h);
    } else {
      RoundsAreRounds(sk, ks, n - 1, h);
      assert 2 * (n - 1) == 2 * n - 2;
      NextRounds(sk, ks, n, h);
    }
  }

  lemma CryptIsEncipher(key: seq<bv8>, p: Pair)
    requires |key| == 8
    ensures var s := Std.Encipher(Std.Block(key), Std.Halves(p.x, p.y)); CryptPair(KeySchedule(key), p) == Pair(s.l, s.r)
  {
    var sk, ks := KeySchedule(key), Std.Schedule(Std.Block(key));
    var h := Std.IP(Std.Halves(p.x, p.y));
    var last := Std.Rounds(ks, 16, h);
    KeyMatches(key);
    InitialIsIP(p);
    RoundsAreRounds(sk, ks, 8, h);
    FinalIsInverseIP(Std.Halves(last.r, last.l));
    hide KeySchedule, InitialPermutation, FinalPermutation, Rounds, RotateLeft, Matches;
    hide Std.IP, Std.InverseIP, Std.Schedule, Std.Rounds, Std.Block;
  }

  lemma BlockOfWords(x: bv32, y: bv32)
    ensures Std.Block(PutUint32(x) + PutUint32(y)) == Std.Halves(x, y)
  {
  }

  lemma WordsOfBlock(b: seq<bv8>)
    requires |b| == 8
    ensures Std.Block(b) == Std.Halves(GetUint32(b, 0), GetUint32(b, 4))
  {
  }

  /** `des_crypt` under the schedule of a key is the encipherment of the standard. */
  lemma CryptIsDes(key: seq<bv8>, b: seq<bv8>)
    requires |key| == 8 && |b| == 8
    ensures Std.Block(Crypt(KeySchedule(key), b)) == Std.Encipher(Std.Block(key), Std.Block(b))
  {
    var p := Pair(GetUint32(b, 0), GetUint32(b, 4));
    var q := CryptPair(KeySchedule(key), p);
    CryptIsEncipher(key, p);
    WordsOfBlock(b);
    BlockOfWords(q.x, q.y);
    hide GetUint32, PutUint32, CryptPair, KeySchedule, Std.Encipher, Std.Block;
  }

  /** Block by block, `code` is the encipherment of `text`. */
  ghost predicate IsEnciphered(key: seq<bv8>, text: seq<bv8>, code: seq<bv8>)
    requires |key| == 8
  {
    && |text| == |code| && |text| % 8 == 0
    && forall k :: 0 <= k < |text| / 8 ==>
         Std.Block(code[8 * k..8 * k + 8]) == Std.Encipher(Std.Block(key), Std.Block(text[8 * k..8 * k + 8]))
  }

  lemma {:induction false} CryptAllIsDes(key: seq<bv8>, s: seq<bv8>)
    requires |key| == 8 && |s| % 8 == 0
    ensures IsEnciphered(key, s, CryptAll(KeySchedule(key), s))
  {
    hide Crypt, KeySchedule, Std.Encipher, Std.Block;
    if s != [] {
      var code := CryptAll(KeySchedule(key), s);
      CryptIsDes(key, s[..8]);
      CryptAllIsDes(key, s[8..]);
      var rest := CryptAll(KeySchedule(key), s[8..]);
      forall k | 0 <= k < |s| / 8
        ensures Std.Block(code[8 * k..8 * k + 8]) == Std.Encipher(Std.Block(key), Std.Block(s[8 * k..8 * k + 8]))
      {
        if k > 0 {
          assert code[8 * k..8 * k + 8] == rest[8 * (k - 1)..8 * (k - 1) + 8];
          assert s[8 * k..8 * k + 8] == s[8..][8 * (k - 1)..8 * (k - 1) + 8];
        } else {
          assert code[..8] == Crypt(KeySchedule(key), s[..8]);
        }
      }
    }
  }

  /** What is encoded is the padded text, enciphered block by block. */
  lemma EncodeIsDes(key: seq<bv8>, text: seq<bv8>, mode: Mode)
    requires |key| == 8
    ensures IsEnciphered(key, Pad(mode, text), CryptAll(KeySchedule(key), Pad(mode, text)))
  {
    hide *;
    CryptAllIsDes(key, Pad(mode, text));
  }

  lemma BackAgain(sk: seq<bv32>)
    requires |sk| == 32
    ensures Reversed(ReverseOf(sk), sk)
  {
    var rk := ReverseOf(sk);
    forall i | 0 <= i < 32 ensures sk[i] == rk[if i % 2 == 0 then 30 - i else 32 - i] {
      var j := if i % 2 == 0 then 30 - i else 32 - i;
      assert j % 2 == i % 2 && rk[j] == sk[if j % 2 == 0 then 30 - j else 32 - j];
    }
  }

  /** What is decoded is the one text that is enciphered to the code. */
  lemma DecodeIsDes(key: seq<bv8>, code: seq<bv8>)
    requires |key| == 8 && |code| % 8 == 0
    ensures IsEnciphered(key, Plain(key, code), code)
  {
    var sk := KeySchedule(key);
    BackAgain(sk);
    CryptAllUndo(ReverseOf(sk), sk, code);
    hide KeySchedule, ReverseOf, CryptAll, IsEnciphered;
    CryptAllIsDes(key, Plain(key, code));
  }
}
