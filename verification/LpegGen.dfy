/** Code generation of 3rd/lpeg/lpcode.c as a function from trees to code. Offsets are relative
    to the instruction that holds them, so the code of a subtree does not depend on where it goes.
    Module LpegCompile proves that the in-place generator produces exactly this code. */
module LpegGen {
  import opened LpegTree
  import opened LpegVm

  /** What `charsettype` answers. */
  datatype CharsetKind = KFail | KChar(c: Byte) | KAny | KSet

  predicate IsSingleton(cs: Charset) {
    exists c :: c in cs && cs == {c}
  }

  function TheChar(cs: Charset): (c: Byte)
    requires IsSingleton(cs)
    ensures cs == {c}
  {
    var c :| c in cs && cs == {c};
    c
  }

  function CharsetType(cs: Charset): CharsetKind {
    if cs == {} then KFail
    else if IsSingleton(cs) then KChar(TheChar(cs))
    else if cs == FULLSET then KAny
    else KSet
  }

  /** An instruction with the slots of its operands. */
  function Emit(ins: Instr): (code: seq<Instr>)
    ensures |code| == SizeI(ins) && code[0] == ins
  {
    [ins] + seq(SizeI(ins) - 1, _ => Pad)
  }

  /** The test instruction that dominates a piece of code, as `codechar` and `codecharset` look at it. */
  datatype Test = NoTest | OnChar(c: Byte) | OnSet(cs: Charset) | OnOther

  function TestOf(cs: Charset, empty: bool): Test {
    if empty then NoTest
    else match CharsetType(cs)
      case KChar(c) => OnChar(c)
      case KSet => OnSet(cs)
      case _ => OnOther
  }

  function TestInstr(cs: Charset, off: int): (ins: Instr)
    ensures HasLabel(ins) && ins.off == off
  {
    match CharsetType(cs)
    case KFail => IJmp(off)
    case KAny => ITestAny(off)
    case KChar(c) => ITestChar(c, off)
    case KSet => ITestSet(cs, off)
  }

  /** Number of slots `codetestset` uses. */
  function TestSize(cs: Charset, empty: bool): nat {
    if empty then 0 else SizeI(TestInstr(cs, 0))
  }

  /** `codetestset`, with the offset it gets in the end. */
  function CodeTestSet(cs: Charset, empty: bool, off: int): (code: seq<Instr>)
    ensures |code| == TestSize(cs, empty)
  {
    if empty then [] else Emit(TestInstr(cs, off))
  }

  function CodeChar(c: Byte, tt: Test): seq<Instr> {
    if tt == OnChar(c) then Emit(IAny) else Emit(IChar(c))
  }

  function CodeCharset(cs: Charset, tt: Test): seq<Instr> {
    match CharsetType(cs)
    case KChar(c) => CodeChar(c, tt)
    case KSet => if tt == OnSet(cs) then Emit(IAny) else Emit(ISet(cs))
    case KFail => Emit(IFail)
    case KAny => Emit(IAny)
  }

  /** When a test alone decides between the branches of `p1 / p2`. */
  predicate TestDecides(p1: Tree, p2: Tree, fl: Charset) {
    var f1 := GetFirst(p1, FULLSET);
    HeadFail(p1) || (!f1.empty && f1.cs !! GetFirst(p2, fl).cs)
  }

  /** When a test alone decides whether to go on with a repetition of `p`. */
  predicate TestEndsLoop(p: Tree, fl: Charset) {
    var f := GetFirst(p, FULLSET);
    HeadFail(p) || (!f.empty && f.cs !! fl)
  }

  function FollowOf(p1: Tree, p2: Tree, fl: Charset): Charset {
    if NeedFollow(p1) then GetFirst(p2, fl).cs else FULLSET
  }

  // How the pieces of a construct are put together, given the code of its parts.

  /** A test that leads past the first branch, the branch, a jump past the second one unless that is empty, and
      the second branch. */
  function TestChoiceCode(test: seq<Instr>, g1: seq<Instr>, g2: seq<Instr>, skip: bool): seq<Instr> {
    test + g1 + JumpOver(g2, skip) + g2
  }

  function JumpOver(g: seq<Instr>, skip: bool): (code: seq<Instr>)
    ensures |code| == if skip then 0 else 2
  {
    if skip then [] else Emit(IJmp(2 + |g|))
  }

  /** Test and backtrack entry lead to the second branch; the first one ends with a commit past it. */
  function PlainChoiceCode(test: seq<Instr>, g1: seq<Instr>, g2: seq<Instr>): seq<Instr> {
    test + Emit(IChoice(2 + |g1| + 2)) + g1 + Emit(ICommit(2 + |g2|)) + g2
  }

  /** The test leads out of the loop; its body ends with a jump back to the test. */
  function TestLoopCode(test: seq<Instr>, g: seq<Instr>): seq<Instr> {
    test + g + Emit(IJmp(-(|test| + |g|)))
  }

  function LoopEntry(g: seq<Instr>, opt: bool): (ins: Instr)
    ensures SizeI(ins) == 2
  {
    if opt then IPartialCommit(2) else IChoice(2 + |g| + 2)
  }

  /** Test and entry lead out of the loop; its body ends with a partial commit back to its start. */
  function ChoiceLoopCode(test: seq<Instr>, g: seq<Instr>, opt: bool): seq<Instr> {
    test + Emit(LoopEntry(g, opt)) + g + Emit(IPartialCommit(-|g|))
  }

  /** Test and backtrack entry lead past the code; a match of the pattern drops the entry and fails. */
  function NotCode(test: seq<Instr>, g: seq<Instr>): seq<Instr> {
    test + Emit(IChoice(2 + |g| + 1)) + g + Emit(IFailTwice)
  }

  /** A match goes back to where it began and on behind the code; the backtrack entry leads to a failure. */
  function AndCode(g: seq<Instr>): seq<Instr> {
    Emit(IChoice(2 + |g| + 2)) + g + Emit(IBackCommit(2 + 1)) + Emit(IFail)
  }

  function BehindCode(n: nat): seq<Instr> {
    if n > 0 then Emit(IBehind(n)) else []
  }

  function Gen(t: Tree, opt: bool, tt: Test, fl: Charset): seq<Instr>
    decreases t, 1
  {
    match t
    case TChar(c) => CodeChar(c, tt)
    case TAny => Emit(IAny)
    case TSet(cs) => CodeCharset(cs, tt)
    case TTrue => []
    case TFalse => Emit(IFail)
    case TChoice(_, _) => GenChoice(t, opt, fl)
    case TRep(_) => GenRep(t, opt, fl)
    case TBehind(p, n) => BehindCode(n) + Gen(p, false, NoTest, FULLSET)
    case TNot(_) => GenNot(t)
    case TAnd(_) => GenAnd(t, tt)
    case TSeq(p1, p2) =>
      Gen(p1, false, tt, FollowOf(p1, p2, fl))
      + Gen(p2, opt, if FixedLen(p1) != 0 then NoTest else tt, fl)
  }

  function GenChoice(t: Tree, opt: bool, fl: Charset): seq<Instr>
    requires t.TChoice?
    decreases t, 0
  {
    var p1, p2 := t.p1, t.p2;
    var f1 := GetFirst(p1, FULLSET);
    if TestDecides(p1, p2, fl) then
      var g1 := Gen(p1, false, TestOf(f1.cs, false), fl);
      var g2 := Gen(p2, opt, NoTest, fl);
      var l1 := TestSize(f1.cs, false) + |g1| + if p2 == TTrue then 0 else 2;
      TestChoiceCode(CodeTestSet(f1.cs, false, l1), g1, g2, p2 == TTrue)
    else if opt && p2 == TTrue then
      Emit(IPartialCommit(2)) + Gen(p1, true, NoTest, FULLSET)
    else
      var g1 := Gen(p1, p2 == TTrue, TestOf(f1.cs, f1.empty), FULLSET);
      var g2 := Gen(p2, opt, NoTest, fl);
      var l1 := TestSize(f1.cs, f1.empty) + 2 + |g1| + 2;
      PlainChoiceCode(CodeTestSet(f1.cs, f1.empty, l1), g1, g2)
  }

  function GenRep(t: Tree, opt: bool, fl: Charset): seq<Instr>
    requires t.TRep?
    decreases t, 0
  {
    var p := t.p;
    var f := GetFirst(p, FULLSET);
    if ToCharset(p).Some? then Emit(ISpan(ToCharset(p).value))
    else if TestEndsLoop(p, fl) then
      var g := Gen(p, false, TestOf(f.cs, false), FULLSET);
      TestLoopCode(CodeTestSet(f.cs, false, TestSize(f.cs, false) + |g| + 2), g)
    else
      var g := Gen(p, false, NoTest, FULLSET);
      ChoiceLoopCode(CodeTestSet(f.cs, f.empty, TestSize(f.cs, f.empty) + 2 + |g| + 2), g, opt)
  }

  function GenNot(t: Tree): seq<Instr>
    requires t.TNot?
    decreases t, 0
  {
    var p := t.p;
    var f := GetFirst(p, FULLSET);
    if HeadFail(p) then
      CodeTestSet(f.cs, f.empty, TestSize(f.cs, f.empty) + 1) + Emit(IFail)
    else
      var g := Gen(p, false, NoTest, FULLSET);
      NotCode(CodeTestSet(f.cs, f.empty, TestSize(f.cs, f.empty) + 2 + |g| + 1), g)
  }

  function GenAnd(t: Tree, tt: Test): seq<Instr>
    requires t.TAnd?
    decreases t, 0
  {
    var n := FixedLen(t.p);
    var g := Gen(t.p, false, tt, FULLSET);
    if 0 <= n <= MAX_BEHIND then g + BehindCode(n) else AndCode(g)
  }

  /** The code of a whole pattern, before `peephole`. */
  function GenPattern(t: Tree): seq<Instr> {
    Gen(t, false, NoTest, FULLSET) + Emit(IEnd)
  }
}
