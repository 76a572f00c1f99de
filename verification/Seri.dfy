/** The serializer of lualib-src/lua-seri.c: Lua values packed into a chain of blocks and read back. A table
    is its array part and the pairs that `lua_next` gives for the rest; a real number or a pointer is its
    image in eight bytes. */
module Seri {

  type Byte = b: nat | b < 0x100

  datatype Value =
    | Nil
    | Bool(b: bool)
    | Int(i: int)
    | Real(image: nat)
    | Pointer(image: nat)
    | Str(s: seq<Byte>)
    | LuaTable(items: seq<Value>, pairs: seq<Entry>)

  datatype Entry = Entry(key: Value, value: Value)

  const TypeNil := 0
  const TypeBoolean := 1
  const TypeNumber := 2
  const TypeUserdata := 3
  const TypeShortString := 4
  const TypeLongString := 5
  const TypeTable := 6

  const MaxCookie := 32
  const MaxDepth := 32

  const Two31 := 0x8000_0000
  const Two32 := 0x1_0000_0000
  const Two63 := 0x8000_0000_0000_0000
  const Two64 := 0x1_0000_0000_0000_0000

  /** The values that there are: 64-bit integers and images, strings and arrays of a length that fits an int,
      and no table with the key nil. */
  ghost predicate Exists(v: Value)
    decreases v
  {
    match v
    case Int(i) => -Two63 <= i < Two63
    case Real(x) => x < Two64
    case Pointer(x) => x < Two64
    case Str(s) => |s| < Two31
    case LuaTable(a, p) =>
      |a| < Two31 && AllExist(a) && AllEntries(p)
    case _ => true
  }

  ghost predicate AllExist(a: seq<Value>)
    decreases a
  {
    forall i :: 0 <= i < |a| ==> Exists(a[i])
  }

  ghost predicate EntryExists(e: Entry)
    decreases e
  {
    !e.key.Nil? && Exists(e.key) && Exists(e.value)
  }

  ghost predicate AllEntries(p: seq<Entry>)
    decreases p
  {
    forall i :: 0 <= i < |p| ==> EntryExists(p[i])
  }

  // ---------------------------------------------------------------------------
  // Numbers as bytes, the low byte first
  // ---------------------------------------------------------------------------

  function Pow256(k: nat): nat {
    if k == 0 then 1 else 256 * Pow256(k - 1)
  }

  function ToBytes(n: nat, k: nat): (s: seq<Byte>)
    ensures |s| == k
  {
    if k == 0 then [] else [n % 256] + ToBytes(n / 256, k - 1)
  }

  function FromBytes(s: seq<Byte>): nat {
    if s == [] then 0 else s[0] as int + 256 * FromBytes(s[1..])
  }

  lemma {:induction false} FromTo(n: nat, k: nat)
    requires n < Pow256(k)
    ensures FromBytes(ToBytes(n, k)) == n
  {
    if k > 0 { FromTo(n / 256, k - 1); }
  }

  lemma Powers()
    ensures Pow256(1) == 0x100 && Pow256(2) == 0x1_0000 && Pow256(4) == Two32 && Pow256(8) == Two64
  {
    assert Pow256(3) == 0x100_0000;
    assert Pow256(5) == 256 * Pow256(4) && Pow256(6) == 256 * Pow256(5) && Pow256(7) == 256 * Pow256(6);
  }

  /** A number of which the upper half stands for the negative ones. */
  function Signed(n: nat, half: nat): int { if n < half then n else n - 2 * half }
  function Unsigned(i: int, half: nat): (n: int) { if i < 0 then i + 2 * half else i }

  // ---------------------------------------------------------------------------
  // Packing
  // ---------------------------------------------------------------------------

  /** `COMBINE_TYPE`. */
  function Combine(t: nat, cookie: nat): Byte
    requires t < 8 && cookie < 32
  {
    t + cookie * 8
  }

  function IntegerBytes(i: int): seq<Byte>
    requires -Two63 <= i < Two63
  {
    if i == 0 then [Combine(TypeNumber, 0)]
    else if !(-Two31 <= i < Two31) then [Combine(TypeNumber, 6)] + ToBytes(Unsigned(i, Two63), 8)
    else if i < 0 then [Combine(TypeNumber, 4)] + ToBytes(Unsigned(i, Two31), 4)
    else if i < 0x100 then [Combine(TypeNumber, 1)] + ToBytes(i, 1)
    else if i < 0x1_0000 then [Combine(TypeNumber, 2)] + ToBytes(i, 2)
    else [Combine(TypeNumber, 4)] + ToBytes(i, 4)
  }

  function StringBytes(s: seq<Byte>): seq<Byte> {
    if |s| < MaxCookie then [Combine(TypeShortString, |s|)] + s
    else if |s| < 0x1_0000 then [Combine(TypeLongString, 2)] + ToBytes(|s|, 2) + s
    else [Combine(TypeLongString, 4)] + ToBytes(|s|, 4) + s
  }

  /** The head of a table; a long array has its length as an integer behind it. */
  function TableHead(n: nat): seq<Byte>
    requires n < Two31
  {
    if n >= MaxCookie - 1 then [Combine(TypeTable, MaxCookie - 1)] + IntegerBytes(n) else [Combine(TypeTable, n)]
  }

  /** The bytes of a value. */
  function Bytes(v: Value): seq<Byte>
    requires Exists(v)
    decreases v
  {
    match v
    case Nil => [TypeNil]
    case Bool(b) => [Combine(TypeBoolean, if b then 1 else 0)]
    case Int(i) => IntegerBytes(i)
    case Real(x) => [Combine(TypeNumber, 8)] + ToBytes(x, 8)
    case Pointer(x) => [TypeUserdata] + ToBytes(x, 8)
    case Str(s) => StringBytes(s)
    case LuaTable(a, p) => TableHead(|a|) + ArrayBytes(a) + PairBytes(p) + [TypeNil]
  }

  function ArrayBytes(a: seq<Value>): seq<Byte>
    requires AllExist(a)
    decreases a
  {
    if a == [] then [] else Bytes(a[0]) + ArrayBytes(a[1..])
  }

  function PairBytes(p: seq<Entry>): seq<Byte>
    requires AllEntries(p)
    decreases p
  {
    if p == [] then [] else EntryBytes(p[0]) + PairBytes(p[1..])
  }

  function EntryBytes(e: Entry): seq<Byte>
    requires EntryExists(e)
    decreases e
  {
    Bytes(e.key) + Bytes(e.value)
  }

  /** The tables are not nested too deeply. */
  predicate Fits(v: Value, depth: nat)
    decreases v
  {
    && depth <= MaxDepth
    && (v.LuaTable? ==>
          && (forall i :: 0 <= i < |v.items| ==> Fits(v.items[i], depth + 1))
          && (forall i :: 0 <= i < |v.pairs| ==> Fits(v.pairs[i].key, depth + 1) && Fits(v.pairs[i].value, depth + 1)))
  }

  /** `n` tables, each in the array part of the next. */
  function Nested(n: nat): Value {
    if n == 0 then Nil else LuaTable([Nested(n - 1)], [])
  }

  /** Thirty-two levels of tables are the limit, counted from the depth at which they are packed. */
  lemma {:induction false} DepthLimit(n: nat, depth: nat)
    ensures Fits(Nested(n), depth) <==> n + depth <= 32
  {
    if n > 0 {
      DepthLimit(n - 1, depth + 1);
      assert Nested(n).items[0] == Nested(n - 1);
    }
  }

  // ---------------------------------------------------------------------------
  // Unpacking
  // ---------------------------------------------------------------------------

  /** What reading gives: a value and the bytes after it, or an invalid stream. */
  datatype Read<T> = Invalid | Got(value: T, rest: seq<Byte>)

  function ReadBytes(s: seq<Byte>, n: nat): Read<seq<Byte>> {
    if |s| < n then Invalid else Got(s[..n], s[n..])
  }

  function ReadNumber(s: seq<Byte>, n: nat): Read<nat> {
    match ReadBytes(s, n)
    case Invalid => Invalid
    case Got(b, rest) => Got(FromBytes(b), rest)
  }

  /** `get_integer`. */
  function ReadInteger(cookie: nat, s: seq<Byte>): (r: Read<int>)
    ensures r.Got? ==> |r.rest| <= |s|
  {
    if cookie == 0 then Got(0, s)
    else if cookie == 1 || cookie == 2 then
      (match ReadNumber(s, cookie)
       case Invalid => Invalid
       case Got(n, rest) => Got(n, rest))
    else if cookie == 4 || cookie == 6 then
      (match ReadNumber(s, if cookie == 4 then 4 else 8)
       case Invalid => Invalid
       case Got(n, rest) => Got(Signed(n, if cookie == 4 then Two31 else Two63), rest))
    else Invalid
  }

  function ReadString(s: seq<Byte>, n: nat): (r: Read<Value>)
    ensures r.Got? ==> |r.rest| <= |s|
  {
    match ReadBytes(s, n)
    case Invalid => Invalid
    case Got(b, rest) => Got(Str(b), rest)
  }

  function ReadLongString(s: seq<Byte>, k: nat): (r: Read<Value>)
    ensures r.Got? ==> |r.rest| <= |s|
  {
    match ReadNumber(s, k)
    case Invalid => Invalid
    case Got(n, rest) => ReadString(rest, n)
  }

  function ReadImage(s: seq<Byte>, number: bool): (r: Read<Value>)
    ensures r.Got? ==> |r.rest| <= |s|
  {
    match ReadNumber(s, 8)
    case Invalid => Invalid
    case Got(n, rest) => Got(if number then Real(n) else Pointer(n), rest)
  }

  /** The length of the array part of a table; it is cut to an int. */
  function ReadLength(cookie: nat, s: seq<Byte>): (r: Read<int>)
    ensures r.Got? ==> |r.rest| <= |s|
  {
    if cookie != MaxCookie - 1 then Got(cookie, s)
    else if s == [] || s[0] % 8 != TypeNumber || s[0] / 8 == 8 then Invalid
    else
      match ReadInteger(s[0] / 8, s[1..])
      case Invalid => Invalid
      case Got(n, rest) => Got(Signed(n % Two32, Two31), rest)
  }

  /** `unpack_one`. */
  function ReadOne(s: seq<Byte>): (r: Read<Value>)
    ensures r.Got? ==> |r.rest| < |s|
    decreases |s|, 1
  {
    if s == [] then Invalid else ReadValue(s[0] % 8, s[0] / 8, s[1..])
  }

  /** `push_value`. */
  function ReadValue(t: nat, cookie: nat, s: seq<Byte>): (r: Read<Value>)
    ensures r.Got? ==> |r.rest| <= |s|
    decreases |s|, 4
  {
    if t == TypeNil then Got(Nil, s)
    else if t == TypeBoolean then Got(Bool(cookie != 0), s)
    else if t == TypeNumber then
      if cookie == 8 then ReadImage(s, true)
      else (match ReadInteger(cookie, s)
            case Invalid => Invalid
            case Got(i, rest) => Got(Int(i), rest))
    else if t == TypeUserdata then ReadImage(s, false)
    else if t == TypeShortString then ReadString(s, cookie)
    else if t == TypeLongString then if cookie == 2 || cookie == 4 then ReadLongString(s, cookie) else Invalid
    else if t == TypeTable then
      (match ReadLength(cookie, s)
       case Invalid => Invalid
       case Got(n, rest) => ReadTable(n, rest))
    else Invalid
  }

  /** `unpack_table`, after the length. */
  function ReadTable(n: int, s: seq<Byte>): (r: Read<Value>)
    ensures r.Got? ==> |r.rest| <= |s|
    decreases |s|, 3
  {
    match ReadArray(n, s)
    case Invalid => Invalid
    case Got(a, rest) =>
      match ReadPairs(rest)
      case Invalid => Invalid
      case Got(p, rest') => Got(LuaTable(a, p), rest')
  }

  function ReadArray(n: int, s: seq<Byte>): (r: Read<seq<Value>>)
    ensures r.Got? ==> |r.rest| <= |s|
    decreases |s|, 2, if n > 0 then n else 0
  {
    if n <= 0 then Got([], s)
    else
      match ReadOne(s)
      case Invalid => Invalid
      case Got(v, rest) =>
        match ReadArray(n - 1, rest)
        case Invalid => Invalid
        case Got(a, rest') => Got([v] + a, rest')
  }

  /** Keys and values up to the key nil. */
  function ReadPairs(s: seq<Byte>): (r: Read<seq<Entry>>)
    ensures r.Got? ==> |r.rest| <= |s|
    decreases |s|, 2, 0
  {
    match ReadOne(s)
    case Invalid => Invalid
    case Got(k, rest) =>
      if k.Nil? then Got([], rest)
      else
        match ReadOne(rest)
        case Invalid => Invalid
        case Got(v, rest') =>
          match ReadPairs(rest')
          case Invalid => Invalid
          case Got(p, rest'') => Got([Entry(k, v)] + p, rest'')
  }

  /** `luaseri_unpack`: values until the bytes are used up. */
  function ReadAll(s: seq<Byte>): Read<seq<Value>>
    decreases |s|
  {
    if s == [] then Got([], [])
    else
      match ReadOne(s)
      case Invalid => Invalid
      case Got(v, rest) =>
        match ReadAll(rest)
        case Invalid => Invalid
        case Got(vs, rest') => Got([v] + vs, rest')
  }

  // ---------------------------------------------------------------------------
  // Reading gives back what was packed
  // ---------------------------------------------------------------------------

  lemma ReadBytesBack(b: seq<Byte>, t: seq<Byte>)
    ensures ReadBytes(b + t, |b|) == Got(b, t)
  {
  }

  lemma ReadNumberBack(n: nat, k: nat, t: seq<Byte>)
    requires n < Pow256(k)
    ensures ReadNumber(ToBytes(n, k) + t, k) == Got(n, t)
  {
    FromTo(n, k);
    ReadBytesBack(ToBytes(n, k), t);
  }

  /** An integer comes back from its cookie and its bytes. */
  lemma ReadIntegerBack(i: int, t: seq<Byte>)
    requires -Two63 <= i < Two63
    ensures var s := IntegerBytes(i) + t;
      s[0] % 8 == TypeNumber && s[0] / 8 < 8 && ReadInteger(s[0] / 8, s[1..]) == Got(i, t)
  {
    Powers();
    hide ToBytes, FromBytes, Pow256;
    var s := IntegerBytes(i) + t;
    if i == 0 {
      assert s[1..] == t;
    } else if !(-Two31 <= i < Two31) {
      assert s[1..] == ToBytes(Unsigned(i, Two63), 8) + t;
      ReadNumberBack(Unsigned(i, Two63), 8, t);
    } else if i < 0 {
      assert s[1..] == ToBytes(Unsigned(i, Two31), 4) + t;
      ReadNumberBack(Unsigned(i, Two31), 4, t);
    } else {
      var k := if i < 0x100 then 1 else if i < 0x1_0000 then 2 else 4;
      assert s[1..] == ToBytes(i, k) + t;
      ReadNumberBack(i, k, t);
    }
  }

  // ---------------------------------------------------------------------------
  // The bytes themselves
  // ---------------------------------------------------------------------------

  lemma {:induction false} BelowPower(s: seq<Byte>)
    ensures FromBytes(s) < Pow256(|s|)
  {
    if s != [] { BelowPower(s[1..]); }
  }

  lemma ReadSize(s: seq<Byte>, k: nat, n: nat, b: seq<Byte>, t: seq<Byte>)
    requires s == b + t && ReadNumber(s, k) == Got(n, t)
    ensures |b| == k && n < Pow256(k)
  {
    BelowPower(s[..k]);
  }

  /** How many bytes follow the first one of an integer. */
  function IntegerSize(i: int): nat {
    if i == 0 then 0
    else if 0 < i < 0x100 then 1
    else if 0 < i < 0x1_0000 then 2
    else if -Two31 <= i < Two31 then 4
    else 8
  }

  /** The form of an integer is the shortest: no other cookie with fewer bytes is read as the same integer. */
  lemma ShortestInteger(i: int, cookie: nat, b: seq<Byte>, t: seq<Byte>)
    requires -Two63 <= i < Two63 && ReadInteger(cookie, b + t) == Got(i, t)
    ensures |IntegerBytes(i)| == 1 + IntegerSize(i) <= 1 + |b|
  {
    Powers();
    hide FromBytes, Pow256, ToBytes;
    if cookie != 0 {
      var k := if cookie == 6 then 8 else cookie;
      var n := ReadNumber(b + t, k).value;
      hide ReadNumber;
      ReadSize(b + t, k, n, b, t);
    }
  }

  /** A number as four bytes, the low one first. */
  function Four(n: nat): seq<Byte>
    requires n < Two32
  {
    [n % 0x100, n / 0x100 % 0x100, n / 0x1_0000 % 0x100, n / 0x100_0000]
  }

  lemma NextByte(n: nat, k: nat)
    ensures ToBytes(n, 0) == [] && ToBytes(n, k + 1) == [n % 0x100] + ToBytes(n / 0x100, k)
  {
  }

  lemma Quarters(n: nat)
    requires n < Two32
    ensures n / 0x100 / 0x100 == n / 0x1_0000 && n / 0x1_0000 / 0x100 % 0x100 == n / 0x100_0000 < 0x100
  {
  }

  lemma TwoBytes(n: nat)
    ensures ToBytes(n, 1) == [n % 0x100] && ToBytes(n, 2) == [n % 0x100, n / 0x100 % 0x100]
  {
    hide ToBytes;
    NextByte(n, 0);
    NextByte(n, 1);
    NextByte(n / 0x100, 0);
    NextByte(n / 0x100 / 0x100, 0);
  }

  lemma FourBytes(n: nat)
    ensures ToBytes(n, 4) == [n % 0x100, n / 0x100 % 0x100] + ToBytes(n / 0x100 / 0x100, 2)
  {
    hide ToBytes;
    NextByte(n, 3);
    NextByte(n / 0x100, 2);
  }

  lemma FourIsFour(n: nat)
    requires n < Two32
    ensures ToBytes(n, 1) == [n % 0x100] && ToBytes(n, 2) == [n % 0x100, n / 0x100 % 0x100] && ToBytes(n, 4) == Four(n)
  {
    hide ToBytes;
    Quarters(n);
    TwoBytes(n);
    FourBytes(n);
    TwoBytes(n / 0x1_0000);
  }

  /** And as eight: the low half first. */
  lemma EightIsFour(n: nat)
    requires n < Two64
    ensures ToBytes(n, 8) == Four(n % Two32) + Four(n / Two32)
  {
    hide ToBytes;
    var n1 := n / 0x100;
    var n2 := n1 / 0x100;
    var n3 := n2 / 0x100;
    var n4 := n3 / 0x100;
    assert n4 == n / Two32;
    NextByte(n, 7);
    NextByte(n1, 6);
    NextByte(n2, 5);
    NextByte(n3, 4);
    FourIsFour(n4);
    LowHalf(n);
  }

  lemma LowHalf(n: nat)
    ensures var n1 := n / 0x100; var n2 := n1 / 0x100; var n3 := n2 / 0x100;
      Four(n % Two32) == [n % 0x100, n1 % 0x100, n2 % 0x100, n3 % 0x100]
  {
    var q, r := n / Two32, n % Two32;
    assert n == Two32 * q + r;
    assert n / 0x100 == 0x100_0000 * q + r / 0x100;
    assert n / 0x100 / 0x100 == 0x1_0000 * q + r / 0x1_0000;
    assert n / 0x100 / 0x100 / 0x100 == 0x100 * q + r / 0x100_0000;
  }

  /** The stream format: one byte for type and length, and what follows it, with all numbers as they are. */
  lemma StreamFormat(i: int, n: nat, s: seq<Byte>, x: nat)
    requires -Two63 <= i < Two63 && n < Two31 && x < Two64
    ensures Bytes(Nil) == [0x00] && Bytes(Bool(false)) == [0x01] && Bytes(Bool(true)) == [0x09]
    ensures i == 0 ==> IntegerBytes(i) == [0x02]
    ensures 0 < i < 0x100 ==> IntegerBytes(i) == [0x0a, i]
    ensures 0x100 <= i < 0x1_0000 ==> IntegerBytes(i) == [0x12, i % 0x100, i / 0x100]
    ensures 0x1_0000 <= i < Two31 ==> IntegerBytes(i) == [0x22] + Four(i)
    ensures -Two31 <= i < 0 ==> IntegerBytes(i) == [0x22] + Four(i + Two32)
    ensures i >= Two31 ==> IntegerBytes(i) == [0x32] + (Four(i % Two32) + Four(i / Two32))
    ensures i < -Two31 ==> IntegerBytes(i) == [0x32] + (Four((i + Two64) % Two32) + Four((i + Two64) / Two32))
    ensures Bytes(Real(x)) == [0x42] + (Four(x % Two32) + Four(x / Two32))
    ensures Bytes(Pointer(x)) == [0x03] + (Four(x % Two32) + Four(x / Two32))
    ensures |s| < 32 ==> StringBytes(s) == [4 + 8 * |s|] + s
    ensures 32 <= |s| < 0x1_0000 ==> StringBytes(s) == [0x15] + [|s| % 0x100, |s| / 0x100] + s
    ensures 0x1_0000 <= |s| < Two31 ==> StringBytes(s) == [0x25] + Four(|s|) + s
    ensures n < 31 ==> TableHead(n) == [6 + 8 * n]
    ensures n >= 31 ==> TableHead(n) == [0xfe] + IntegerBytes(n)
  {
    IntegerFormat(i);
    ImageFormat(x);
    StringFormat(s);
    HeadFormat(n);
    hide ToBytes, IntegerBytes, StringBytes, TableHead, Four;
  }

  lemma ImageFormat(x: nat)
    requires x < Two64
    ensures Bytes(Real(x)) == [0x42] + (Four(x % Two32) + Four(x / Two32))
    ensures Bytes(Pointer(x)) == [0x03] + (Four(x % Two32) + Four(x / Two32))
  {
    hide ToBytes, Four;
    EightIsFour(x);
  }

  lemma StringFormat(s: seq<Byte>)
    ensures |s| < 32 ==> StringBytes(s) == [4 + 8 * |s|] + s
    ensures 32 <= |s| < 0x1_0000 ==> StringBytes(s) == [0x15] + [|s| % 0x100, |s| / 0x100] + s
    ensures 0x1_0000 <= |s| < Two31 ==> StringBytes(s) == [0x25] + Four(|s|) + s
  {
    hide ToBytes, Four;
    if |s| < Two31 { FourIsFour(|s|); }
  }

  lemma HeadFormat(n: nat)
    requires n < Two31
    ensures n < 31 ==> TableHead(n) == [6 + 8 * n]
    ensures n >= 31 ==> TableHead(n) == [0xfe] + IntegerBytes(n)
  {
    hide IntegerBytes;
  }

  lemma IntegerFormat(i: int)
    requires -Two63 <= i < Two63
    ensures i == 0 ==> IntegerBytes(i) == [0x02]
    ensures 0 < i < 0x100 ==> IntegerBytes(i) == [0x0a, i]
    ensures 0x100 <= i < 0x1_0000 ==> IntegerBytes(i) == [0x12, i % 0x100, i / 0x100]
    ensures 0x1_0000 <= i < Two31 ==> IntegerBytes(i) == [0x22] + Four(i)
    ensures -Two31 <= i < 0 ==> IntegerBytes(i) == [0x22] + Four(i + Two32)
    ensures i >= Two31 ==> IntegerBytes(i) == [0x32] + (Four(i % Two32) + Four(i / Two32))
    ensures i < -Two31 ==> IntegerBytes(i) == [0x32] + (Four((i + Two64) % Two32) + Four((i + Two64) / Two32))
  {
    hide ToBytes, Four;
    if -Two31 <= i < Two31 { FourIsFour(Unsigned(i, Two31)); } else { EightIsFour(Unsigned(i, Two63)); }
  }

  lemma ReadShortBack(b: seq<Byte>, t: seq<Byte>)
    requires |b| < MaxCookie
    ensures ReadOne(StringBytes(b) + t) == Got(Str(b), t)
  {
    var s := StringBytes(b) + t;
    assert s[1..] == b + t;
    ReadBytesBack(b, t);
    hide ReadBytes;
  }

  lemma ReadLongBack(b: seq<Byte>, k: nat, t: seq<Byte>)
    requires |b| < Pow256(k)
    ensures ReadLongString(ToBytes(|b|, k) + (b + t), k) == Got(Str(b), t)
  {
    ReadNumberBack(|b|, k, b + t);
    ReadBytesBack(b, t);
    hide ReadNumber, ReadBytes, ToBytes;
  }

  lemma LongString(s: seq<Byte>, k: nat)
    requires s != [] && (k == 2 || k == 4) && s[0] == Combine(TypeLongString, k)
    ensures ReadOne(s) == ReadLongString(s[1..], k)
  {
    hide ReadLongString;
  }

  lemma Tail<T>(c: T, n: seq<T>, b: seq<T>, t: seq<T>)
    ensures ([c] + n + b) + t == [c] + (n + (b + t)) && ([c] + (n + (b + t)))[1..] == n + (b + t)
  {
  }

  /** A string comes back, with its length in the cookie or in two or four bytes. */
  lemma ReadStringBack(b: seq<Byte>, t: seq<Byte>)
    requires |b| < Two31
    ensures ReadOne(StringBytes(b) + t) == Got(Str(b), t)
  {
    if |b| < MaxCookie {
      ReadShortBack(b, t);
    } else {
      Powers();
      hide ReadOne, ToBytes, Pow256, ReadLongString;
      var k := if |b| < 0x1_0000 then 2 else 4;
      var c, n := Combine(TypeLongString, k), ToBytes(|b|, k);
      assert StringBytes(b) == [c] + n + b;
      hide StringBytes, Combine;
      Tail(c, n, b, t);
      ReadLongBack(b, k, t);
      LongString([c] + (n + (b + t)), k);
    }
  }

  lemma ReadLengthBack(n: nat, t: seq<Byte>)
    requires n < Two31
    ensures var s := TableHead(n) + t; s[0] % 8 == TypeTable && ReadLength(s[0] / 8, s[1..]) == Got(n, t)
  {
    var s := TableHead(n) + t;
    hide IntegerBytes, ReadInteger;
    if n >= MaxCookie - 1 {
      assert s[1..] == IntegerBytes(n) + t;
      ReadIntegerBack(n, t);
    } else {
      assert s[1..] == t;
    }
  }

  lemma ReadNil(t: seq<Byte>)
    ensures ReadOne([TypeNil] + t) == Got(Nil, t)
  {
    assert ([TypeNil] + t)[1..] == t;
  }

  lemma ReadPlainBack(v: Value, t: seq<Byte>)
    requires Exists(v) && (v.Nil? || v.Bool? || v.Int?)
    ensures ReadOne(Bytes(v) + t) == Got(v, t)
  {
    var s := Bytes(v) + t;
    if v.Int? { ReadIntegerBack(v.i, t); } else { assert s[1..] == t; }
    hide ReadInteger, IntegerBytes;
  }

  lemma ReadImageBack(v: Value, t: seq<Byte>)
    requires Exists(v) && (v.Real? || v.Pointer?)
    ensures ReadOne(Bytes(v) + t) == Got(v, t)
  {
    Powers();
    var s := Bytes(v) + t;
    assert s[1..] == ToBytes(v.image, 8) + t;
    ReadNumberBack(v.image, 8, t);
    hide ReadNumber, ToBytes, Pow256;
  }

  /** A table is read in parts. */
  lemma ReadTableParts(s: seq<Byte>, n: int, s0: seq<Byte>, a: seq<Value>, s1: seq<Byte>, p: seq<Entry>, t: seq<Byte>)
    requires s != [] && s[0] % 8 == TypeTable && ReadLength(s[0] / 8, s[1..]) == Got(n, s0)
    requires ReadArray(n, s0) == Got(a, s1) && ReadPairs(s1) == Got(p, t)
    ensures ReadOne(s) == Got(LuaTable(a, p), t)
  {
    hide ReadArray, ReadPairs, ReadLength;
    assert ReadTable(n, s0) == Got(LuaTable(a, p), t);
    hide ReadTable;
    assert ReadValue(TypeTable, s[0] / 8, s[1..]) == ReadTable(n, s0);
    hide ReadValue;
    assert ReadOne(s) == ReadValue(s[0] % 8, s[0] / 8, s[1..]);
  }

  lemma Regroup<T>(a: seq<T>, b: seq<T>, c: seq<T>, d: seq<T>, e: seq<T>)
    ensures (a + b + c + d) + e == a + (b + (c + d + e))
  {
  }

  lemma Associate<T>(a: seq<T>, b: seq<T>, c: seq<T>)
    ensures a + b + c == a + (b + c)
  {
  }

  lemma Collect<T>(a: seq<T>, b: seq<T>, c: seq<T>, d: seq<T>, e: seq<T>)
    ensures a + b + c + d + e == a + (b + c + d + e)
  {
  }

  /** Every value comes back, whatever follows it. */
  lemma {:induction false} ReadBack(v: Value, t: seq<Byte>)
    requires Exists(v)
    ensures ReadOne(Bytes(v) + t) == Got(v, t)
    decreases v
  {
    if v.LuaTable? {
      hide ReadOne, ReadArray, ReadPairs, ReadLength, TableHead, ArrayBytes, PairBytes, AllExist, AllEntries;
      var n, a, p := |v.items|, ArrayBytes(v.items), PairBytes(v.pairs);
      var s1 := p + [TypeNil] + t;
      Regroup(TableHead(n), a, p, [TypeNil], t);
      ReadLengthBack(n, a + s1);
      ReadArrayBack(v.items, s1);
      ReadPairsBack(v.pairs, t);
      ReadTableParts(TableHead(n) + (a + s1), n, a + s1, v.items, s1, v.pairs, t);
    } else {
      hide ReadOne;
      match v
      case Str(b) => ReadStringBack(b, t);
      case Real(_) => ReadImageBack(v, t);
      case Pointer(_) => ReadImageBack(v, t);
      case _ => ReadPlainBack(v, t);
    }
  }

  lemma {:induction false} ReadArrayBack(a: seq<Value>, t: seq<Byte>)
    requires AllExist(a)
    ensures ReadArray(|a|, ArrayBytes(a) + t) == Got(a, t)
    decreases a
  {
    hide ReadOne;
    if a == [] {
      assert [] + t == t;
    } else {
      var t' := ArrayBytes(a[1..]) + t;
      assert AllExist(a[1..]) && Exists(a[0]);
      hide AllExist, Exists;
      assert ArrayBytes(a) + t == Bytes(a[0]) + t';
      ReadBack(a[0], t');
      ReadArrayBack(a[1..], t);
      assert a == [a[0]] + a[1..];
      hide Bytes, ArrayBytes;
    }
  }

  lemma {:induction false} ReadEntryBack(e: Entry, t: seq<Byte>)
    requires EntryExists(e)
    ensures ReadOne(EntryBytes(e) + t) == Got(e.key, Bytes(e.value) + t)
    ensures ReadOne(Bytes(e.value) + t) == Got(e.value, t)
    decreases e
  {
    hide ReadOne;
    assert EntryBytes(e) + t == Bytes(e.key) + (Bytes(e.value) + t);
    ReadBack(e.key, Bytes(e.value) + t);
    ReadBack(e.value, t);
  }

  lemma {:induction false} ReadPairsBack(p: seq<Entry>, t: seq<Byte>)
    requires AllEntries(p)
    ensures ReadPairs(PairBytes(p) + [TypeNil] + t) == Got(p, t)
    decreases p
  {
    hide ReadOne;
    if p == [] {
      ReadNil(t);
      assert PairBytes(p) + [TypeNil] + t == [TypeNil] + t;
    } else {
      assert AllEntries(p[1..]) && EntryExists(p[0]);
      hide AllEntries, Exists;
      var e, t' := p[0], PairBytes(p[1..]) + [TypeNil] + t;
      assert PairBytes(p) + [TypeNil] + t == EntryBytes(e) + t';
      ReadEntryBack(e, t');
      ReadPairsBack(p[1..], t);
      assert p == [e] + p[1..];
      hide Bytes, PairBytes, EntryBytes;
    }
  }

  /** For every list of values, unpacking the packed bytes gives the list back. */
  lemma {:induction false} ReadAllBack(vs: seq<Value>)
    requires AllExist(vs)
    ensures ReadAll(ArrayBytes(vs)) == Got(vs, [])
  {
    if vs != [] {
      ReadBack(vs[0], ArrayBytes(vs[1..]));
      ReadAllBack(vs[1..]);
      assert vs == [vs[0]] + vs[1..];
    }
  }

  // ---------------------------------------------------------------------------
  // The block list
  // ---------------------------------------------------------------------------

  const BlockSize := 128

  /** All bytes of a list of blocks. */
  ghost function Concat(blocks: seq<seq<Byte>>): seq<Byte> {
    if blocks == [] then [] else Concat(blocks[..|blocks| - 1]) + blocks[|blocks| - 1]
  }

  /** The blocks written so far, the last of them filled up to `ptr`. */
  class WriteBlock {
    var blocks: seq<seq<Byte>>
    var ptr: nat
    var len: nat

    ghost predicate Valid()
      reads this
    {
      && blocks != [] && ptr <= BlockSize && len == (|blocks| - 1) * BlockSize + ptr
      && forall i :: 0 <= i < |blocks| ==> |blocks[i]| == BlockSize
    }

    /** The bytes pushed so far. */
    ghost function Contents(): seq<Byte>
      reads this
      requires Valid()
    {
      Concat(blocks[..|blocks| - 1]) + blocks[|blocks| - 1][..ptr]
    }

    constructor ()
      ensures Valid() && Contents() == [] && blocks == [seq(128, _ => 0)]
    {
      blocks := [seq(BlockSize, _ => 0)];
      ptr, len := 0, 0;
    }

    /** A new block behind a full one. */
    method NewBlock()
      requires Valid() && ptr == BlockSize
      modifies this
      ensures Valid() && ptr == 0 && Contents() == old(Contents())
    {
      assert blocks[|blocks| - 1][..ptr] == blocks[|blocks| - 1];
      ghost var before := blocks;
      blocks := blocks + [seq(BlockSize, _ => 0)];
      assert blocks[..|blocks| - 1] == before;
      ptr := 0;
    }

    /** Copies bytes that fit into the last block. */
    method Fill(buf: seq<Byte>)
      requires Valid() && ptr + |buf| <= BlockSize
      modifies this
      ensures Valid() && ptr == old(ptr) + |buf| && Contents() == old(Contents()) + buf
    {
      var last := |blocks| - 1;
      var b := blocks[last];
      blocks := blocks[last := b[..ptr] + buf + b[ptr + |buf|..]];
      assert blocks[..last] == old(blocks)[..last];
      ptr, len := ptr + |buf|, len + |buf|;
      assert blocks[last][..ptr] == b[..old(ptr)] + buf;
      hide Concat;
    }

    /** `wb_push`: over as many blocks as it takes. */
    method Push(buf: seq<Byte>)
      requires Valid()
      modifies this
      ensures Valid() && Contents() == old(Contents()) + buf
    {
      var rest := buf;
      if ptr == BlockSize { NewBlock(); }
      while ptr + |rest| > BlockSize
        invariant Valid() && Contents() + rest == old(Contents()) + buf
        decreases |rest|, ptr
      {
        var copy := BlockSize - ptr;
        ghost var before := Contents();
        assert before + rest == (before + rest[..copy]) + rest[copy..];
        Fill(rest[..copy]);
        rest := rest[copy..];
        NewBlock();
      }
      ghost var before := Contents();
      Fill(rest);
    }

    /** `seri`: the blocks copied into one buffer. */
    method Flatten() returns (buffer: seq<Byte>)
      requires Valid()
      ensures buffer == Contents()
    {
      buffer := [];
      var left, b := len, 0;
      while left > 0
        invariant 0 <= b <= |blocks| && 0 <= left == len - b * BlockSize && buffer == Concat(blocks[..b])
        decreases left
      {
        if left >= BlockSize {
          assert blocks[..b + 1][..b] == blocks[..b];
          buffer := buffer + blocks[b];
          left := left - BlockSize;
          b := b + 1;
        } else {
          buffer := buffer + blocks[b][..left];
          return;
        }
      }
      if b == |blocks| - 1 {
        assert blocks[b][..ptr] == [];
      } else {
        assert b == |blocks| && ptr == BlockSize && |blocks[|blocks| - 1]| == BlockSize;
        assert blocks[|blocks| - 1][..ptr] == blocks[|blocks| - 1] && blocks[..b] == blocks;
      }
    }
  }

  // ---------------------------------------------------------------------------
  // Packing into the block list
  // ---------------------------------------------------------------------------

  method PushBoth(wb: WriteBlock, a: seq<Byte>, b: seq<Byte>)
    requires wb.Valid()
    modifies wb
    ensures wb.Valid() && wb.Contents() == old(wb.Contents()) + (a + b)
  {
    wb.Push(a);
    wb.Push(b);
  }

  /** `wb_integer`. */
  method WriteInteger(wb: WriteBlock, i: int)
    requires wb.Valid() && -Two63 <= i < Two63
    modifies wb
    ensures wb.Valid() && wb.Contents() == old(wb.Contents()) + IntegerBytes(i)
  {
    hide Concat, ToBytes;
    if i == 0 {
      wb.Push([Combine(TypeNumber, 0)]);
    } else if !(-Two31 <= i < Two31) {
      PushBoth(wb, [Combine(TypeNumber, 6)], ToBytes(Unsigned(i, Two63), 8));
    } else if i < 0 {
      PushBoth(wb, [Combine(TypeNumber, 4)], ToBytes(Unsigned(i, Two31), 4));
    } else if i < 0x100 {
      PushBoth(wb, [Combine(TypeNumber, 1)], ToBytes(i, 1));
    } else if i < 0x1_0000 {
      PushBoth(wb, [Combine(TypeNumber, 2)], ToBytes(i, 2));
    } else {
      PushBoth(wb, [Combine(TypeNumber, 4)], ToBytes(i, 4));
    }
  }

  /** `wb_string`. */
  method WriteString(wb: WriteBlock, s: seq<Byte>)
    requires wb.Valid() && |s| < Two31
    modifies wb
    ensures wb.Valid() && wb.Contents() == old(wb.Contents()) + StringBytes(s)
  {
    hide Concat, ToBytes;
    if |s| < MaxCookie {
      PushBoth(wb, [Combine(TypeShortString, |s|)], s);
    } else if |s| < 0x1_0000 {
      PushBoth(wb, [Combine(TypeLongString, 2)] + ToBytes(|s|, 2), s);
    } else {
      PushBoth(wb, [Combine(TypeLongString, 4)] + ToBytes(|s|, 4), s);
    }
  }

  /** The bytes of one more value come after those of the values before. */
  lemma {:induction false} ArrayBytesNext(a: seq<Value>, i: nat)
    requires AllExist(a) && i < |a|
    ensures AllExist(a[..i]) && AllExist(a[..i + 1]) && Exists(a[i])
    ensures ArrayBytes(a[..i + 1]) == ArrayBytes(a[..i]) + Bytes(a[i])
  {
    hide Bytes, Exists;
    if i == 0 {
      assert a[..1] == [a[0]] && a[..1][1..] == [];
    } else {
      assert a[..i + 1][1..] == a[1..][..i] && a[..i][1..] == a[1..][..i - 1];
      ArrayBytesNext(a[1..], i - 1);
    }
  }

  lemma {:induction false} PairBytesNext(p: seq<Entry>, i: nat)
    requires AllEntries(p) && i < |p|
    ensures AllEntries(p[..i]) && AllEntries(p[..i + 1]) && EntryExists(p[i])
    ensures PairBytes(p[..i + 1]) == PairBytes(p[..i]) + EntryBytes(p[i])
  {
    hide EntryBytes, EntryExists;
    if i == 0 {
      assert p[..1] == [p[0]] && p[..1][1..] == [];
    } else {
      assert p[..i + 1][1..] == p[1..][..i] && p[..i][1..] == p[1..][..i - 1];
      PairBytesNext(p[1..], i - 1);
    }
  }

  /** `pack_one`: fails if and only if tables are nested too deeply. */
  method PackOne(wb: WriteBlock, v: Value, depth: nat) returns (ok: bool)
    requires wb.Valid() && Exists(v)
    modifies wb
    ensures wb.Valid() && ok == Fits(v, depth)
    ensures ok ==> wb.Contents() == old(wb.Contents()) + Bytes(v)
    decreases v, 2
  {
    if depth > MaxDepth { return false; }
    ok := true;
    hide Concat, IntegerBytes, StringBytes, ToBytes;
    match v
    case Nil => wb.Push([TypeNil]);
    case Bool(b) => wb.Push([Combine(TypeBoolean, if b then 1 else 0)]);
    case Int(i) => WriteInteger(wb, i);
    case Real(x) => PushBoth(wb, [Combine(TypeNumber, 8)], ToBytes(x, 8));
    case Pointer(x) => PushBoth(wb, [TypeUserdata], ToBytes(x, 8));
    case Str(s) => WriteString(wb, s);
    case LuaTable(_, _) => ok := PackTable(wb, v, depth + 1);
  }

  /** `wb_table`: the array part, then the pairs, then nil. */
  method PackTable(wb: WriteBlock, v: Value, depth: nat) returns (ok: bool)
    requires wb.Valid() && v.LuaTable? && Exists(v)
    modifies wb
    ensures wb.Valid()
    ensures ok <==> (forall i :: 0 <= i < |v.items| ==> Fits(v.items[i], depth))
                    && (forall i :: 0 <= i < |v.pairs| ==> Fits(v.pairs[i].key, depth) && Fits(v.pairs[i].value, depth))
    ensures ok ==> wb.Contents() == old(wb.Contents()) + Bytes(v)
    decreases v, 1
  {
    var n := |v.items|;
    ghost var head, a, p := TableHead(n), ArrayBytes(v.items), PairBytes(v.pairs);
    assert Bytes(v) == head + a + p + [TypeNil];
    hide Concat, Bytes, ArrayBytes, PairBytes, Fits, Exists, AllExist, AllEntries;
    ghost var c := wb.Contents();
    WriteHead(wb, n);
    hide TableHead;
    ok := PackArray(wb, v, depth);
    if !ok { return; }
    ok := PackPairs(wb, v, depth);
    if !ok { return; }
    wb.Push([TypeNil]);
    Collect(c, head, a, p, [TypeNil]);
  }

  method WriteHead(wb: WriteBlock, n: nat)
    requires wb.Valid() && n < Two31
    modifies wb
    ensures wb.Valid() && wb.Contents() == old(wb.Contents()) + TableHead(n)
  {
    hide Concat, IntegerBytes;
    if n >= MaxCookie - 1 {
      wb.Push([Combine(TypeTable, MaxCookie - 1)]);
      WriteInteger(wb, n);
    } else {
      wb.Push([Combine(TypeTable, n)]);
    }
  }

  /** `wb_table_array`. */
  method PackArray(wb: WriteBlock, v: Value, depth: nat) returns (ok: bool)
    requires wb.Valid() && v.LuaTable? && AllExist(v.items)
    modifies wb
    ensures wb.Valid() && (ok <==> forall i :: 0 <= i < |v.items| ==> Fits(v.items[i], depth))
    ensures ok ==> wb.Contents() == old(wb.Contents()) + ArrayBytes(v.items)
    decreases v, 0
  {
    var a := v.items;
    ghost var c := wb.Contents();
    assert AllExist(a[..0]) && ArrayBytes(a[..0]) == [];
    hide Concat, Bytes, ArrayBytes, Fits, Exists, AllExist;
    for i := 0 to |a|
      invariant wb.Valid() && AllExist(a[..i]) && wb.Contents() == c + ArrayBytes(a[..i])
      invariant forall j :: 0 <= j < i ==> Fits(a[j], depth)
    {
      ArrayBytesNext(a, i);
      ok := PackOne(wb, a[i], depth);
      if !ok { return; }
      Associate(c, ArrayBytes(a[..i]), Bytes(a[i]));
    }
    assert a[..|a|] == a;
    ok := true;
  }

  method PackEntry(wb: WriteBlock, e: Entry, depth: nat) returns (ok: bool)
    requires wb.Valid() && EntryExists(e)
    modifies wb
    ensures wb.Valid() && ok == EntryFits(e, depth)
    ensures ok ==> wb.Contents() == old(wb.Contents()) + EntryBytes(e)
    decreases e
  {
    hide Concat, Bytes, Fits, Exists;
    ghost var c := wb.Contents();
    ok := PackOne(wb, e.key, depth);
    if !ok { return; }
    ok := PackOne(wb, e.value, depth);
    assert (c + Bytes(e.key)) + Bytes(e.value) == c + (Bytes(e.key) + Bytes(e.value));
  }

  ghost predicate EntryFits(e: Entry, depth: nat) { Fits(e.key, depth) && Fits(e.value, depth) }

  /** `wb_table_hash`, up to the nil at its end. */
  method PackPairs(wb: WriteBlock, v: Value, depth: nat) returns (ok: bool)
    requires wb.Valid() && v.LuaTable? && AllEntries(v.pairs)
    modifies wb
    ensures wb.Valid() && (ok <==> forall i :: 0 <= i < |v.pairs| ==> EntryFits(v.pairs[i], depth))
    ensures ok ==> wb.Contents() == old(wb.Contents()) + PairBytes(v.pairs)
    decreases v, 0
  {
    var p := v.pairs;
    ghost var c := wb.Contents();
    assert AllEntries(p[..0]) && PairBytes(p[..0]) == [];
    hide *;
    for i := 0 to |p|
      invariant wb.Valid() && AllEntries(p[..i]) && wb.Contents() == c + PairBytes(p[..i])
      invariant forall j :: 0 <= j < i ==> EntryFits(p[j], depth)
    {
      PairBytesNext(p, i);
      ok := PackEntry(wb, p[i], depth);
      if !ok { return; }
      Associate(c, PairBytes(p[..i]), EntryBytes(p[i]));
    }
    assert p[..|p|] == p;
    ok := true;
  }

  /** `luaseri_pack`: all values one after the other, flattened. */
  method Pack(vs: seq<Value>) returns (ok: bool, buffer: seq<Byte>)
    requires AllExist(vs)
    ensures ok <==> forall i :: 0 <= i < |vs| ==> Fits(vs[i], 0)
    ensures ok ==> buffer == ArrayBytes(vs)
  {
    var wb := new WriteBlock();
    assert AllExist(vs[..0]) && ArrayBytes(vs[..0]) == [];
    hide Concat, Bytes, ArrayBytes, Fits, Exists, AllExist;
    for i := 0 to |vs|
      invariant fresh(wb) && wb.Valid() && AllExist(vs[..i]) && wb.Contents() == ArrayBytes(vs[..i])
      invariant forall j :: 0 <= j < i ==> Fits(vs[j], 0)
    {
      ArrayBytesNext(vs, i);
      ok := PackOne(wb, vs[i], 0);
      if !ok { return false, []; }
    }
    assert vs[..|vs|] == vs;
    ok := true;
    buffer := wb.Flatten();
  }

  /** For every list of values that can be packed, unpacking gives the list back. */
  method PackedComesBack(vs: seq<Value>) returns (ok: bool, r: Read<seq<Value>>)
    requires AllExist(vs)
    ensures ok <==> forall i :: 0 <= i < |vs| ==> Fits(vs[i], 0)
    ensures ok ==> r == Got(vs, [])
  {
    var buffer;
    ok, buffer := Pack(vs);
    ReadAllBack(vs);
    hide ArrayBytes, ReadAll, Exists, Fits;
    r := if ok then ReadAll(buffer) else Invalid;
  }
}
