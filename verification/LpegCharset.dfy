/** Charsets as LPeg stores them, 32 bytes with one bit for each character, and the scan
    `charsettype` over the bytes. */
module LpegCharset {
  import opened LpegTree
  import opened LpegGen

  const CHARSET_SIZE := 32
  const BITS_PER_CHAR := 8

  type Bits = s: seq<bv8> | |s| == CHARSET_SIZE witness seq(CHARSET_SIZE, _ => 0)

  /** `testchar` within a byte. */
  predicate Bit(b: bv8, j: int) {
    match j
    case 0 => b & 1 != 0
    case 1 => b & 2 != 0
    case 2 => b & 4 != 0
    case 3 => b & 8 != 0
    case 4 => b & 16 != 0
    case 5 => b & 32 != 0
    case 6 => b & 64 != 0
    case 7 => b & 128 != 0
    case _ => false
  }

  predicate TestChar(cs: Bits, c: Byte) {
    Bit(cs[c / BITS_PER_CHAR], c % BITS_PER_CHAR)
  }

  /** The characters of a charset. */
  function ToSet(cs: Bits): Charset {
    set c: Byte | 0 <= c < 256 && TestChar(cs, c)
  }

  /** The position of the bit in a byte that has only one. */
  function BitIndex(b: bv8): (j: int)
    ensures 0 <= j < 8
  {
    var c4 := if b & 0xF0 != 0 then 4 else 0;
    var b4 := if b & 0xF0 != 0 then b >> 4 else b;
    var c2 := if b4 & 0x0C != 0 then 2 else 0;
    var b2 := if b4 & 0x0C != 0 then b4 >> 2 else b4;
    c4 + c2 + if b2 & 0x02 != 0 then 1 else 0
  }

  lemma EmptyByte(j: int)
    ensures !Bit(0, j)
  {
  }

  lemma FullByte(j: int)
    ensures 0 <= j < 8 ==> Bit(0xFF, j)
  {
  }

  lemma SingleByte(b: bv8, j: int)
    requires b != 0 && b & (b - 1) == 0
    ensures Bit(b, j) <==> j == BitIndex(b)
  {
    if 0 <= j < 8 {
      match j
      case 0 =>
      case 1 =>
      case 2 =>
      case 3 =>
      case 4 =>
      case 5 =>
      case 6 =>
      case 7 =>
    }
  }

  /** A byte that is neither empty nor a single bit has two bits. */
  lemma MixedByte(b: bv8) returns (j: int, k: int)
    requires b != 0 && b & (b - 1) != 0
    ensures 0 <= j < k < 8 && Bit(b, j) && Bit(b, k)
  {
    j := if b & 1 != 0 then 0 else if b & 2 != 0 then 1 else if b & 4 != 0 then 2 else if b & 8 != 0 then 3
         else if b & 16 != 0 then 4 else if b & 32 != 0 then 5 else 6;
    k := if b & 128 != 0 then 7 else if b & 64 != 0 then 6 else if b & 32 != 0 then 5 else if b & 16 != 0 then 4
         else if b & 8 != 0 then 3 else if b & 4 != 0 then 2 else 1;
  }

  /** Two members and a missing character make a general set. */
  lemma GeneralSet(cs: Bits, x: Byte, y: Byte, z: Byte)
    requires TestChar(cs, x) && TestChar(cs, y) && x != y && !TestChar(cs, z)
    ensures CharsetType(ToSet(cs)) == KSet
  {
    assert x in ToSet(cs) && y in ToSet(cs) && z !in ToSet(cs) && z in FULLSET;
  }

  /** What `count` and `candidate` say about the first `i` bytes. */
  ghost predicate Scanned(cs: Bits, i: int, count: int, candidate: int)
    requires 0 <= i <= CHARSET_SIZE
  {
    || (count == 0 && forall k :: 0 <= k < i ==> cs[k] == 0)
    || (count == 1 && 0 <= candidate < i
        && cs[candidate] != 0 && cs[candidate] & (cs[candidate] - 1) == 0
        && forall k :: 0 <= k < i && k != candidate ==> cs[k] == 0)
    || (count == i * BITS_PER_CHAR && i > 0 && forall k :: 0 <= k < i ==> cs[k] == 0xFF)
  }

  /** A character in a byte that is not empty. */
  lemma SomeBit(b: bv8) returns (j: int)
    requires b != 0
    ensures 0 <= j < 8 && Bit(b, j)
  {
    j := if b & 1 != 0 then 0 else if b & 2 != 0 then 1 else if b & 4 != 0 then 2 else if b & 8 != 0 then 3
         else if b & 16 != 0 then 4 else if b & 32 != 0 then 5 else if b & 64 != 0 then 6 else 7;
  }

  lemma SomeGap(b: bv8) returns (j: int)
    requires b != 0xFF
    ensures 0 <= j < 8 && !Bit(b, j)
  {
    j := if b & 1 == 0 then 0 else if b & 2 == 0 then 1 else if b & 4 == 0 then 2 else if b & 8 == 0 then 3
         else if b & 16 == 0 then 4 else if b & 32 == 0 then 5 else if b & 64 == 0 then 6 else 7;
  }

  /** The cases in which the scan stops early. */
  lemma StopsEarly(cs: Bits, i: int, count: int, candidate: int)
    requires 0 <= i < CHARSET_SIZE && Scanned(cs, i, count, candidate)
    requires var b := cs[i];
             || (b == 0 && count > 1)
             || (b == 0xFF && count < i * BITS_PER_CHAR)
             || (b != 0 && b != 0xFF && b & (b - 1) == 0 && count > 0)
             || (b != 0 && b != 0xFF && b & (b - 1) != 0)
    ensures CharsetType(ToSet(cs)) == KSet
  {
    hide Bit, CharsetType, ToSet;
    var b := cs[i];
    if b == 0 {
      EmptyByte(0);
      FullByte(0);
      FullByte(1);
      GeneralSet(cs, 0, 1, 8 * i);
    } else if b == 0xFF {
      FullByte(0);
      FullByte(1);
      var gap := SomeGap(cs[0]);
      GeneralSet(cs, 8 * i, 8 * i + 1, gap);
    } else {
      var z := SomeGap(b);
      if b & (b - 1) == 0 {
        var x := SomeBit(b);
        var k := if count == 1 then candidate else 0;
        var y := SomeBit(cs[k]);
        GeneralSet(cs, 8 * i + x, 8 * k + y, 8 * i + z);
      } else {
        var x, y := MixedByte(b);
        GeneralSet(cs, 8 * i + x, 8 * i + y, 8 * i + z);
      }
    }
  }

  /** The cases in which the scan reaches the end. */
  lemma ScanEnds(cs: Bits, count: int, candidate: int)
    requires Scanned(cs, CHARSET_SIZE, count, candidate)
    ensures count == 0 ==> CharsetType(ToSet(cs)) == KFail
    ensures count == 1 ==> CharsetType(ToSet(cs)) == KChar(candidate * BITS_PER_CHAR + BitIndex(cs[candidate]))
    ensures count > 1 ==> CharsetType(ToSet(cs)) == KAny
  {
    forall c: Byte
      ensures count == 0 ==> !TestChar(cs, c)
      ensures count == 1 ==> (TestChar(cs, c) <==> c == candidate * BITS_PER_CHAR + BitIndex(cs[candidate]))
      ensures count > 1 ==> TestChar(cs, c)
    {
      EmptyByte(c % 8);
      FullByte(c % 8);
      if count == 1 { SingleByte(cs[candidate], c % 8); }
    }
    if count == 0 {
      assert ToSet(cs) == {};
    } else if count == 1 {
      var x: Byte := candidate * BITS_PER_CHAR + BitIndex(cs[candidate]);
      assert ToSet(cs) == {x};
    } else {
      assert ToSet(cs) == FULLSET;
      assert 0 in FULLSET && 1 in FULLSET;
    }
  }

  /** `charsettype` agrees with the classification of the set that the bytes stand for. */
  method ScanCharset(cs: Bits) returns (kind: CharsetKind)
    ensures kind == CharsetType(ToSet(cs))
  {
    var count := 0;
    var candidate := -1;
    for i := 0 to CHARSET_SIZE
      invariant Scanned(cs, i, count, candidate)
    {
      var b := cs[i];
      if b == 0 {
        if count > 1 {
          StopsEarly(cs, i, count, candidate);
          return KSet;
        }
      } else if b == 0xFF {
        if count < i * BITS_PER_CHAR {
          StopsEarly(cs, i, count, candidate);
          return KSet;
        } else {
          count := count + BITS_PER_CHAR;
        }
      } else if b & (b - 1) == 0 {
        if count > 0 {
          StopsEarly(cs, i, count, candidate);
          return KSet;
        } else {
          count := count + 1;
          candidate := i;
        }
      } else {
        StopsEarly(cs, i, count, candidate);
        return KSet;
      }
    }
    ScanEnds(cs, count, candidate);
    if count == 0 {
      kind := KFail;
    } else if count == 1 {
      kind := KChar(candidate * BITS_PER_CHAR + BitIndex(cs[candidate]));
    } else {
      kind := KAny;
    }
  }
}
