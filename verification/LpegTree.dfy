/** LPeg pattern trees without captures and grammars (3rd/lpeg/lptree.h), their PEG meaning,
    and the static analyses that drive the optimisations of 3rd/lpeg/lpcode.c. */
module LpegTree {

  datatype Option<+T> = None | Some(value: T)

  type Byte = b: int | 0 <= b < 256

  /** A charset, seen as the set of its characters; module LpegCharset relates it to the 32-byte table. */
  type Charset = set<Byte>

  const FULLSET: Charset := set b: Byte | 0 <= b < 256

  /** Most bytes a look-behind may step back (MAXBEHIND). */
  const MAX_BEHIND := 255

  datatype Tree =
    | TChar(c: Byte)
    | TSet(cs: Charset)
    | TAny
    | TTrue
    | TFalse
    | TRep(p: Tree)
    | TSeq(p1: Tree, p2: Tree)
    | TChoice(p1: Tree, p2: Tree)
    | TNot(p: Tree)
    | TAnd(p: Tree)
    | TBehind(p: Tree, n: nat)

  // ---------------------------------------------------------------------------
  // Meaning
  // ---------------------------------------------------------------------------

  /** PEG semantics: the position after the match of `t` at `i`, or None when it fails.
      A repetition stops when its body no longer advances; `RepBodyAdvances` shows that a
      well-formed tree never meets that guard. */
  function Peg(t: Tree, s: seq<Byte>, i: nat): (r: Option<nat>)
    requires i <= |s|
    ensures r.Some? ==> i <= r.value <= |s|
    decreases t, |s| - i
  {
    match t
    case TChar(c) => if i < |s| && s[i] == c then Some(i + 1) else None
    case TSet(cs) => if i < |s| && s[i] in cs then Some(i + 1) else None
    case TAny => if i < |s| then Some(i + 1) else None
    case TTrue => Some(i)
    case TFalse => None
    case TRep(p) =>
      var r := Peg(p, s, i);
      if r.None? then Some(i)
      else if r.value <= i then Some(i)
      else Peg(t, s, r.value)
    case TSeq(p1, p2) =>
      var r := Peg(p1, s, i);
      if r.None? then None else Peg(p2, s, r.value)
    case TChoice(p1, p2) =>
      var r := Peg(p1, s, i);
      if r.Some? then r else Peg(p2, s, i)
    case TNot(p) => if Peg(p, s, i).Some? then None else Some(i)
    case TAnd(p) => if Peg(p, s, i).Some? then Some(i) else None
    case TBehind(p, n) =>
      if n > i then None
      else if Peg(p, s, i - n).Some? then Some(i) else None
  }

  /** What the tree constructors guarantee: loop bodies are not nullable (lp_star) and a
      look-behind holds the fixed length of its pattern (lp_behind). */
  predicate WellFormed(t: Tree) {
    match t
    case TRep(p) => WellFormed(p) && !Nullable(p)
    case TSeq(p1, p2) => WellFormed(p1) && WellFormed(p2)
    case TChoice(p1, p2) => WellFormed(p1) && WellFormed(p2)
    case TNot(p) => WellFormed(p)
    case TAnd(p) => WellFormed(p)
    case TBehind(p, n) => WellFormed(p) && FixedLen(p) == n && n <= MAX_BEHIND
    case _ => true
  }

  // ---------------------------------------------------------------------------
  // Analyses
  // ---------------------------------------------------------------------------

  datatype Pred = PEnullable | PEnofail

  predicate CheckAux(t: Tree, pred: Pred) {
    match t
    case TChar(_) => false
    case TSet(_) => false
    case TAny => false
    case TFalse => false
    case TRep(_) => true
    case TTrue => true
    case TNot(_) => pred == PEnullable
    case TBehind(_, _) => pred == PEnullable
    case TAnd(p) => pred == PEnullable || CheckAux(p, pred)
    case TSeq(p1, p2) => CheckAux(p1, pred) && CheckAux(p2, pred)
    case TChoice(p1, p2) => CheckAux(p2, pred) || CheckAux(p1, pred)
  }

  predicate Nullable(t: Tree) { CheckAux(t, PEnullable) }

  predicate NoFail(t: Tree) { CheckAux(t, PEnofail) }

  /** Number of characters every match consumes, or -1 when it varies. */
  function FixedLen(t: Tree): (n: int)
    ensures n >= -1
  {
    match t
    case TChar(_) => 1
    case TSet(_) => 1
    case TAny => 1
    case TFalse => 0
    case TTrue => 0
    case TNot(_) => 0
    case TAnd(_) => 0
    case TBehind(_, _) => 0
    case TRep(_) => -1
    case TSeq(p1, p2) =>
      var n1 := FixedLen(p1);
      if n1 < 0 then -1
      else
        var n2 := FixedLen(p2);
        if n2 < 0 then -1 else n1 + n2
    case TChoice(p1, p2) =>
      var n1 := FixedLen(p1);
      var n2 := FixedLen(p2);
      if n1 != n2 || n1 < 0 then -1 else n1
  }

  function ToCharset(t: Tree): Option<Charset> {
    match t
    case TSet(cs) => Some(cs)
    case TChar(c) => Some({c})
    case TAny => Some(FULLSET)
    case _ => None
  }

  /** The first set of `t` when `follow` comes after it. `empty` is the C function's return
      value, which without captures is 0 or 1: a test on the set may replace the pattern
      only when it is 0. */
  datatype First = First(cs: Charset, empty: bool)

  function GetFirst(t: Tree, follow: Charset): First {
    match t
    case TChar(c) => First({c}, false)
    case TSet(cs) => First(cs, false)
    case TAny => First(FULLSET, false)
    case TTrue => First(follow, true)
    case TFalse => First({}, false)
    case TChoice(p1, p2) =>
      var f1 := GetFirst(p1, follow);
      var f2 := GetFirst(p2, follow);
      First(f1.cs + f2.cs, f1.empty || f2.empty)
    case TSeq(p1, p2) =>
      if !Nullable(p1) then GetFirst(p1, FULLSET)
      else
        var f2 := GetFirst(p2, follow);
        var f1 := GetFirst(p1, f2.cs);
        First(f1.cs, f1.empty && f2.empty)
    case TRep(p) => First(GetFirst(p, follow).cs + follow, true)
    case TAnd(p) =>
      var f := GetFirst(p, follow);
      First(f.cs * follow, f.empty)
    case TNot(p) =>
      if ToCharset(p).Some? then First(FULLSET - ToCharset(p).value, true) else First(follow, true)
    case TBehind(_, _) => First(follow, true)
  }

  /** True only when the pattern can fail on nothing but the next character. */
  predicate HeadFail(t: Tree) {
    match t
    case TChar(_) => true
    case TSet(_) => true
    case TAny => true
    case TFalse => true
    case TTrue => false
    case TRep(_) => false
    case TNot(_) => false
    case TBehind(_, _) => false
    case TAnd(p) => HeadFail(p)
    case TSeq(p1, p2) => NoFail(p2) && HeadFail(p1)
    case TChoice(p1, p2) => HeadFail(p1) && HeadFail(p2)
  }

  predicate NeedFollow(t: Tree) {
    match t
    case TChoice(_, _) => true
    case TRep(_) => true
    case TSeq(_, p2) => NeedFollow(p2)
    case _ => false
  }

  // ---------------------------------------------------------------------------
  // Soundness of the analyses
  // ---------------------------------------------------------------------------

  lemma {:induction false} NoFailSound(t: Tree, s: seq<Byte>, i: nat)
    requires NoFail(t) && i <= |s|
    ensures Peg(t, s, i).Some?
    decreases t, |s| - i
  {
    match t
    case TRep(p) =>
      var r := Peg(p, s, i);
      if r.Some? && r.value > i { NoFailSound(t, s, r.value); }
    case TAnd(p) => NoFailSound(p, s, i);
    case TSeq(p1, p2) =>
      NoFailSound(p1, s, i);
      NoFailSound(p2, s, Peg(p1, s, i).value);
    case TChoice(p1, p2) =>
      if NoFail(p2) { NoFailSound(p2, s, i); } else { NoFailSound(p1, s, i); }
    case _ =>
  }

  lemma {:induction false} NotNullableConsumes(t: Tree, s: seq<Byte>, i: nat)
    requires !Nullable(t) && i <= |s|
    ensures Peg(t, s, i).Some? ==> Peg(t, s, i).value > i
  {
    match t
    case TSeq(p1, p2) =>
      if !Nullable(p1) { NotNullableConsumes(p1, s, i); }
      else if Peg(p1, s, i).Some? { NotNullableConsumes(p2, s, Peg(p1, s, i).value); }
    case TChoice(p1, p2) =>
      NotNullableConsumes(p1, s, i);
      NotNullableConsumes(p2, s, i);
    case _ =>
  }

  /** The guard of `Peg` against idle loops is never met by a well-formed tree. */
  lemma RepBodyAdvances(p: Tree, s: seq<Byte>, i: nat)
    requires WellFormed(TRep(p)) && i <= |s|
    ensures Peg(TRep(p), s, i)
         == if Peg(p, s, i).None? then Some(i) else Peg(TRep(p), s, Peg(p, s, i).value)
    ensures Peg(p, s, i).Some? ==> Peg(p, s, i).value > i
  {
    NotNullableConsumes(p, s, i);
  }

  lemma {:induction false} FixedLenSound(t: Tree, s: seq<Byte>, i: nat)
    requires FixedLen(t) >= 0 && i <= |s|
    ensures Peg(t, s, i).Some? ==> Peg(t, s, i).value == i + FixedLen(t)
  {
    match t
    case TSeq(p1, p2) =>
      FixedLenSound(p1, s, i);
      if Peg(p1, s, i).Some? { FixedLenSound(p2, s, Peg(p1, s, i).value); }
    case TChoice(p1, p2) =>
      FixedLenSound(p1, s, i);
      FixedLenSound(p2, s, i);
    case _ =>
  }

  /** A match that consumes, or that is followed by a character of `follow`, starts in the first set. */
  lemma {:induction false} GetFirstSound(t: Tree, follow: Charset, s: seq<Byte>, i: nat)
    requires WellFormed(t) && i < |s|
    ensures var r := Peg(t, s, i);
            r.Some? && (r.value > i || s[i] in follow) ==> s[i] in GetFirst(t, follow).cs
  {
    match t
    case TSeq(p1, p2) =>
      if Peg(p1, s, i).Some? {
        var k := Peg(p1, s, i).value;
        if !Nullable(p1) {
          NotNullableConsumes(p1, s, i);
          GetFirstSound(p1, FULLSET, s, i);
        } else {
          if k == i { GetFirstSound(p2, follow, s, i); }
          GetFirstSound(p1, GetFirst(p2, follow).cs, s, i);
        }
      }
    case TChoice(p1, p2) =>
      GetFirstSound(p1, follow, s, i);
      GetFirstSound(p2, follow, s, i);
    case TRep(p) =>
      RepBodyAdvances(p, s, i);
      GetFirstSound(p, follow, s, i);
    case TAnd(p) =>
      GetFirstSound(p, follow, s, i);
    case TNot(p) =>
      if ToCharset(p).Some? { ToCharsetSound(p, s, i); }
    case _ =>
  }

  lemma ToCharsetSound(t: Tree, s: seq<Byte>, i: nat)
    requires ToCharset(t).Some? && i <= |s|
    ensures Peg(t, s, i) == if i < |s| && s[i] in ToCharset(t).value then Some(i + 1) else None
  {
  }

  /** When `GetFirst` answers 0 the pattern fails at the end of the subject. */
  lemma {:induction false} NotEmptyFailsAtEnd(t: Tree, follow: Charset, s: seq<Byte>)
    requires WellFormed(t) && !GetFirst(t, follow).empty
    ensures Peg(t, s, |s|).None?
  {
    match t
    case TSeq(p1, p2) =>
      if !Nullable(p1) {
        NotEmptyFailsAtEnd(p1, FULLSET, s);
      } else {
        var f2 := GetFirst(p2, follow);
        if !GetFirst(p1, f2.cs).empty {
          NotEmptyFailsAtEnd(p1, f2.cs, s);
        } else {
          NotEmptyFailsAtEnd(p2, follow, s);
        }
      }
    case TChoice(p1, p2) =>
      NotEmptyFailsAtEnd(p1, follow, s);
      NotEmptyFailsAtEnd(p2, follow, s);
    case TAnd(p) => NotEmptyFailsAtEnd(p, follow, s);
    case _ =>
  }

  lemma {:induction false} NoFailFirstIsFull(t: Tree)
    requires NoFail(t)
    ensures GetFirst(t, FULLSET).cs == FULLSET && Nullable(t)
  {
    match t
    case TRep(p) =>
      assert GetFirst(p, FULLSET).cs <= FULLSET;
    case TTrue =>
    case TAnd(p) => NoFailFirstIsFull(p);
    case TSeq(p1, p2) =>
      NoFailFirstIsFull(p1);
      NoFailFirstIsFull(p2);
    case TChoice(p1, p2) =>
      if NoFail(p2) { NoFailFirstIsFull(p2); } else { NoFailFirstIsFull(p1); }
      assert GetFirst(p1, FULLSET).cs <= FULLSET && GetFirst(p2, FULLSET).cs <= FULLSET;
    case _ =>
  }

  /** A head-fail pattern matches exactly when the next character is in its first set. */
  lemma {:induction false} HeadFailExact(t: Tree, s: seq<Byte>, i: nat)
    requires WellFormed(t) && HeadFail(t) && i <= |s|
    ensures Peg(t, s, i).Some? <==> i < |s| && s[i] in GetFirst(t, FULLSET).cs
    ensures !GetFirst(t, FULLSET).empty
  {
    match t
    case TAnd(p) => HeadFailExact(p, s, i);
    case TSeq(p1, p2) =>
      HeadFailExact(p1, s, i);
      NoFailFirstIsFull(p2);
      if Peg(p1, s, i).Some? { NoFailSound(p2, s, Peg(p1, s, i).value); }
    case TChoice(p1, p2) =>
      HeadFailExact(p1, s, i);
      HeadFailExact(p2, s, i);
    case _ =>
  }
}
