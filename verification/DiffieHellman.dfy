/** Powers modulo the largest 64-bit prime, lualib-src/lua-crypt.c, and the key exchange built on them. All
    values are unsigned 64-bit numbers, and every operation wraps. */
module DiffieHellman {

  const Two64 := 0x1_0000_0000_0000_0000
  const P := 0xffff_ffff_ffff_ffc5
  const G := 5

  type Uint64 = x: nat | x < 0x1_0000_0000_0000_0000

  function Add(a: Uint64, b: Uint64): Uint64 { (a + b) % Two64 }
  function Sub(a: Uint64, b: Uint64): Uint64 { (a - b) % Two64 }
  function Double(a: Uint64): Uint64 { (a * 2) % Two64 }

  // ---------------------------------------------------------------------------
  // Congruence
  // ---------------------------------------------------------------------------

  lemma ModUnique(x: int, q: int, r: int)
    requires x == q * P + r && 0 <= r < P
    ensures x % P == r
  {
    var q', r' := x / P, x % P;
    assert x == q' * P + r';
    assert (q' - q) * P == r - r';
  }

  /** `x` and `y` differ by a multiple of the modulus. */
  ghost predicate Congruent(x: int, y: int) { exists k: int :: Shifted(x, y, k) }

  ghost predicate Shifted(x: int, y: int, k: int) { x == y + k * P }

  lemma CongruentMod(x: int)
    ensures Congruent(x, x % P)
  {
    assert Shifted(x, x % P, x / P);
  }

  lemma CongruentEqual(x: int, y: int)
    requires Congruent(x, y) && 0 <= y < P
    ensures x % P == y
  {
    var k: int :| Shifted(x, y, k);
    ModUnique(x, k, y);
  }

  lemma CongruentTrans(x: int, y: int, z: int)
    requires Congruent(x, y) && Congruent(y, z)
    ensures Congruent(x, z) && Congruent(z, x)
  {
    var k: int :| Shifted(x, y, k);
    var l: int :| Shifted(y, z, l);
    assert (k + l) * P == k * P + l * P && (-k - l) * P == -(k * P) - l * P;
    assert Shifted(x, z, k + l) && Shifted(z, x, -k - l);
  }

  lemma CongruentMul(x: int, x': int, y: int, y': int)
    requires Congruent(x, x') && Congruent(y, y')
    ensures Congruent(x * y, x' * y')
  {
    var k: int :| Shifted(x, x', k);
    var l: int :| Shifted(y, y', l);
    MulShifted(x', k, y', l);
    assert Shifted(x * y, x' * y', x' * l + k * y' + k * l * P);
  }

  lemma MulShifted(x: int, k: int, y: int, l: int)
    ensures (x + k * P) * (y + l * P) == x * y + (x * l + k * y + k * l * P) * P
  {
    var p := P;
    assert (x + k * p) * (y + l * p) == x * y + x * (l * p) + (k * p) * y + (k * p) * (l * p);
    assert x * (l * p) == (x * l) * p && (k * p) * y == (k * y) * p && (k * p) * (l * p) == (k * l * p) * p;
  }

  function Pow(a: int, b: nat): int {
    if b == 0 then 1 else a * Pow(a, b - 1)
  }

  lemma {:induction false} PowAdd(a: int, b: nat, c: nat)
    ensures Pow(a, b + c) == Pow(a, b) * Pow(a, c)
  {
    if b > 0 {
      PowAdd(a, b - 1, c);
      MulAssoc(a, Pow(a, b - 1), Pow(a, c));
    }
  }

  lemma MulAssoc(a: int, b: int, c: int)
    ensures a * (b * c) == (a * b) * c
  {
  }

  lemma {:induction false} PowMul(a: int, b: nat, c: nat)
    ensures Pow(Pow(a, b), c) == Pow(a, b * c)
  {
    if c > 0 {
      PowMul(a, b, c - 1);
      assert b * c == b + b * (c - 1);
      PowAdd(a, b, b * (c - 1));
    }
  }

  lemma {:induction false} CongruentPow(a: int, a': int, b: nat)
    requires Congruent(a, a')
    ensures Congruent(Pow(a, b), Pow(a', b))
  {
    if b == 0 {
      assert Shifted(1, 1, 0);
    } else {
      CongruentPow(a, a', b - 1);
      CongruentMul(a, a', Pow(a, b - 1), Pow(a', b - 1));
    }
  }

  // ---------------------------------------------------------------------------
  // The code
  // ---------------------------------------------------------------------------

  /** `mul_mod_p`: doubling and adding, without ever leaving 64 bits by mistake. */
  method MulModP(a0: Uint64, b0: Uint64) returns (m: Uint64)
    requires a0 <= P
    ensures m == (a0 * b0) % P
  {
    m := 0;
    var a: Uint64, b: Uint64 := a0, b0;
    ghost var k := 0;
    hide Add, Sub, Double;
    while b != 0
      invariant a <= P && m < P && m + a * b + k * P == a0 * b0
      decreases b
    {
      AddStep(m, a);
      DoubleStep(a);
      ghost var e := if b % 2 == 1 && m >= P - a then 1 else 0;
      ghost var d := if a >= P - a then 1 else 0;
      MulStep(m, a, b, k, a0 * b0, d, e);
      if b % 2 == 1 {
        var t := Sub(P, a);
        if m >= t { m := Sub(m, t); } else { m := Add(m, a); }
      }
      if a >= Sub(P, a) { a := Sub(Double(a), P); } else { a := Double(a); }
      k := k + e + d * (b / 2);
      b := b / 2;
    }
    ModUnique(a0 * b0, k, m);
  }

  /** Adding without overflow: the test compares with the distance to the modulus. */
  lemma AddStep(m: Uint64, a: Uint64)
    requires m < P && a <= P
    ensures Sub(P, a) == P - a
    ensures if m >= P - a then Sub(m, Sub(P, a)) == m + a - P else Add(m, a) == m + a
  {
  }

  /** Doubling may overflow, and the subtraction that follows takes it back. */
  lemma DoubleStep(a: Uint64)
    requires a <= P
    ensures Sub(P, a) == P - a
    ensures if a >= P - a then Sub(Double(a), P) == 2 * a - P else Double(a) == 2 * a
  {
  }

  lemma MulStep(m: int, a: int, b: nat, k: int, total: int, d: int, e: int)
    requires m + a * b + k * P == total
    ensures (m + (b % 2) * a - e * P) + (2 * a - d * P) * (b / 2) + (k + e + d * (b / 2)) * P == total
  {
    var h, r, p := b / 2, b % 2, P;
    assert b == 2 * h + r;
    assert a * b == 2 * (a * h) + r * a by { assert a * (2 * h + r) == 2 * (a * h) + a * r; }
    assert (2 * a - d * p) * h == 2 * (a * h) - (d * h) * p;
    assert (k + e + d * h) * p == k * p + e * p + (d * h) * p;
  }

  /** `pow_mod_p`. */
  method PowModP(a: Uint64, b: Uint64) returns (t: Uint64)
    requires a <= P && b >= 1
    ensures t == if b == 1 then a else Pow(a, b) % P
    decreases b
  {
    if b == 1 { return a; }
    var half := PowModP(a, b / 2);
    HalfPower(a, b, half);
    t := MulModP(half, half);
    if b % 2 == 1 {
      var t' := t;
      t := MulModP(t, a);
      OddPower(a, b, t', t);
    }
  }

  lemma HalfPower(a: nat, b: nat, half: nat)
    requires b >= 2 && half == if b / 2 == 1 then a else Pow(a, b / 2) % P
    ensures (half * half) % P == Pow(a, b - b % 2) % P
  {
    var h := b / 2;
    if h == 1 {
      assert Pow(a, 1) == a * Pow(a, 0);
      assert Shifted(Pow(a, h), half, 0);
    } else {
      CongruentMod(Pow(a, h));
    }
    CongruentMul(Pow(a, h), half, Pow(a, h), half);
    PowAdd(a, h, h);
    SameMod(Pow(a, h + h), half * half);
  }

  lemma SameMod(x: int, y: int)
    requires Congruent(x, y)
    ensures x % P == y % P
  {
    CongruentMod(y);
    CongruentTrans(x, y, y % P);
    CongruentEqual(x, y % P);
  }

  lemma OddPower(a: nat, b: nat, t': nat, t: nat)
    requires b >= 2 && b % 2 == 1 && t' == Pow(a, b - 1) % P && t == (t' * a) % P
    ensures t == Pow(a, b) % P
  {
    CongruentMod(Pow(a, b - 1));
    assert Shifted(a, a, 0);
    CongruentMul(Pow(a, b - 1), t', a, a);
    assert Pow(a, b) == Pow(a, b - 1) * a;
    SameMod(Pow(a, b), t' * a);
  }

  /** `powmodp` is the power modulo `P`, with one exception: the modulus itself is not reduced, which shows
      only when the exponent is 1. */
  method PowMod(a: Uint64, b: Uint64) returns (r: Uint64)
    requires b >= 1
    ensures r == Pow(a, b) % P <==> !(a == P && b == 1)
    ensures a == P && b == 1 ==> r == P
  {
    var a' := if a > P then a % P else a;
    r := PowModP(a', b);
    CongruentMod(a);
    if a <= P { assert Shifted(a, a, 0); }
    CongruentPow(a, a', b);
    SameMod(Pow(a, b), Pow(a', b));
    if b == 1 { assert Pow(a', 1) == a' * Pow(a', 0); }
  }

  // ---------------------------------------------------------------------------
  // The exchange
  // ---------------------------------------------------------------------------

  /** No power of the generator is a multiple of the modulus. */
  lemma {:induction false} GeneratorPower(x: nat)
    ensures Pow(G, x) % P != 0
  {
    if x > 0 {
      GeneratorPower(x - 1);
      Cancel(Pow(G, x - 1));
    }
  }

  /** The generator has an inverse, because five divides twice the modulus plus one. */
  lemma Cancel(z: int)
    ensures (G * z) % P == 0 ==> z % P == 0
  {
    var q, r := G * z / P, (G * z) % P;
    assert G * z == q * P + r;
    var inverse := (2 * P + 1) / G;
    if r == 0 {
      InverseStep(z, inverse, q);
      ModUnique(z, inverse * q - 2 * z, 0);
    }
  }

  lemma InverseStep(z: int, inverse: int, q: int)
    requires G * z == q * P && G * inverse == 2 * P + 1
    ensures z == (inverse * q - 2 * z) * P + 0
  {
    var p := P;
    assert inverse * (G * z) == inverse * (q * p) == (inverse * q) * p;
    assert inverse * (G * z) == (G * inverse) * z == 2 * p * z + z;
    assert (inverse * q - 2 * z) * p == (inverse * q) * p - 2 * p * z;
  }

  /** The first powers are those of 5, all different, and the first one to pass the modulus is reduced by it. */
  lemma FirstPowers(x: nat, y: nat)
    requires x < y <= 27
    ensures Pow(5, y) < 0xffff_ffff_ffff_ffc5 && Pow(5, x) < Pow(5, y) && Pow(G, y) % P == Pow(5, y)
    ensures Pow(G, 1) % P == 5 && Pow(G, 28) % P == 359_414_837_200_037_511
  {
    Below(y);
    Grows(x, y);
    TwentyEight();
    assert Pow(5, 28) == 2 * 0xffff_ffff_ffff_ffc5 + 359_414_837_200_037_511;
  }

  lemma {:induction false} Grows(x: nat, y: nat)
    requires x < y
    ensures 0 < Pow(5, x) < Pow(5, y)
  {
    if x > 0 { Grows(x - 1, y - 1); } else if y > 1 { Grows(0, y - 1); }
  }

  lemma Below(y: nat)
    requires y <= 27
    ensures Pow(5, y) <= 7_450_580_596_923_828_125
  {
    TwentyEight();
    if y < 27 { Grows(y, 27); }
  }

  lemma TwentyEight()
    ensures Pow(5, 27) == 7_450_580_596_923_828_125 && Pow(5, 28) == 37_252_902_984_619_140_625 && Pow(5, 1) == 5
  {
    assert Pow(5, 7) == 78_125;
    assert Pow(5, 14) == 6_103_515_625;
    assert Pow(5, 21) == 476_837_158_203_125;
  }

  /** `ldhexchange`: what is sent to the other side; zero is an error. */
  method Exchange(x: Uint64) returns (ok: bool, r: Uint64)
    ensures ok <==> x != 0
    ensures ok ==> r == Pow(G, x) % P && r != 0
    ensures x == 1 ==> r == 5
  {
    FirstPowers(0, 1);
    if x == 0 { return false, 0; }
    ok := true;
    r := PowMod(G, x);
    GeneratorPower(x);
  }

  /** `ldhsecret`: what both sides compute from it; zero is an error. */
  method Secret(other: Uint64, mine: Uint64) returns (ok: bool, r: Uint64)
    ensures ok <==> other != 0 && mine != 0
    ensures ok ==> (r == Pow(other, mine) % P <==> !(other == P && mine == 1))
  {
    if other == 0 || mine == 0 { return false, 0; }
    ok := true;
    r := PowMod(other, mine);
  }

  /** Both sides derive the same secret, and neither gets an error. */
  method Agree(x: Uint64, y: Uint64) returns (okX: bool, secretX: Uint64, okY: bool, secretY: Uint64)
    requires x >= 1 && y >= 1
    ensures okX && okY && secretX == secretY == Pow(G, x * y) % P
  {
    var _, sentX := Exchange(x);
    var _, sentY := Exchange(y);
    okX, secretX := Secret(sentY, x);
    okY, secretY := Secret(sentX, y);
    SecretIs(y, x);
    SecretIs(x, y);
  }

  lemma SecretIs(x: nat, y: nat)
    ensures Pow(Pow(G, x) % P, y) % P == Pow(G, x * y) % P
  {
    CongruentMod(Pow(G, x));
    CongruentPow(Pow(G, x), Pow(G, x) % P, y);
    PowMul(G, x, y);
    SameMod(Pow(Pow(G, x), y), Pow(Pow(G, x) % P, y));
  }
}
