/** The compiler and the matcher as the C code runs them: code is appended and patched in place,
    `peephole` rewrites it, and `match` is one loop over its registers. */
module LpegCompile {
  import opened LpegTree
  import opened LpegVm
  import opened LpegGen
  import opened LpegCorrect
  import opened LpegPeephole
  import opened LpegLabels

  /** In place of an address: there is no such instruction. */
  const NOINST := -1

  /** The dominating test that the instruction at `tt` stands for. */
  function TestAt(code: seq<Instr>, tt: int): Test
    requires tt < |code|
  {
    if tt < 0 then NoTest
    else match code[tt]
      case ITestChar(c, _) => OnChar(c)
      case ITestSet(cs, _) => OnSet(cs)
      case _ => OnOther
  }

  /** Setting the offset of an instruction that is already followed by other code. */
  lemma PatchEmit(base: seq<Instr>, ins: Instr, off: int, rest: seq<Instr>)
    requires HasLabel(ins)
    ensures (base + Emit(ins) + rest)[|base|] == ins
    ensures (base + Emit(ins) + rest)[|base| := WithOffset(ins, off)] == base + Emit(WithOffset(ins, off)) + rest
  {
    assert (base + Emit(ins) + rest)[|base|] == Emit(ins)[0];
  }

  lemma PatchTest(base: seq<Instr>, cs: Charset, off: int, rest: seq<Instr>)
    ensures (base + CodeTestSet(cs, false, 0) + rest)[|base|] == TestInstr(cs, 0)
    ensures (base + CodeTestSet(cs, false, 0) + rest)[|base| := WithOffset(TestInstr(cs, 0), off)]
         == base + CodeTestSet(cs, false, off) + rest
  {
    PatchEmit(base, TestInstr(cs, 0), off, rest);
  }

  /** `CompileState`: the code so far; `ncode` is its length. */
  class CompileState {
    var code: seq<Instr>

    constructor ()
      ensures code == []
    {
      code := [];
    }

    method AddInstruction(ins: Instr) returns (i: nat)
      modifies this
      ensures i == old(|code|) && code == old(code) + [ins]
    {
      i := |code|;
      code := code + [ins];
    }

    /** An instruction and the slots of its operands. */
    method AddWithOperands(ins: Instr) returns (i: nat)
      modifies this
      ensures i == old(|code|) && code == old(code) + Emit(ins)
    {
      ghost var base := code;
      i := AddInstruction(ins);
      for k := 1 to SizeI(ins)
        invariant code == base + [ins] + seq(k - 1, _ => Pad)
      {
        var _ := AddInstruction(Pad);
      }
    }

    /** Gives an instruction, if there is one, its offset. */
    method JumpToThere(instruction: int, target: int)
      requires instruction < |code|
      requires instruction >= 0 ==> HasLabel(code[instruction])
      modifies this
      ensures instruction < 0 ==> code == old(code)
      ensures instruction >= 0 ==>
                code == old(code)[instruction := WithOffset(old(code)[instruction], target - instruction)]
    {
      if instruction >= 0 {
        code := code[instruction := WithOffset(code[instruction], target - instruction)];
      }
    }

    method JumpToHere(instruction: int)
      requires instruction < |code|
      requires instruction >= 0 ==> HasLabel(code[instruction])
      modifies this
      ensures instruction < 0 ==> code == old(code)
      ensures instruction >= 0 ==>
                code == old(code)[instruction := WithOffset(old(code)[instruction], |old(code)| - instruction)]
    {
      JumpToThere(instruction, |code|);
    }

    /** `JumpToHere` for an instruction whose place in the code is known. */
    method PatchToHere(instruction: nat, ghost base: seq<Instr>, ghost ins: Instr, ghost rest: seq<Instr>)
      requires HasLabel(ins) && code == base + Emit(ins) + rest && instruction == |base|
      modifies this
      ensures code == base + Emit(WithOffset(ins, SizeI(ins) + |rest|)) + rest
    {
      PatchEmit(base, ins, SizeI(ins) + |rest|, rest);
      JumpToHere(instruction);
    }

    /** `JumpToHere` for a test that may be missing. */
    method PatchTestToHere(test: int, ghost base: seq<Instr>, ghost cs: Charset, ghost e: bool, ghost rest: seq<Instr>)
      requires code == base + LpegGen.CodeTestSet(cs, e, 0) + rest && test == if e then NOINST else |base|
      modifies this
      ensures code == base + LpegGen.CodeTestSet(cs, e, TestSize(cs, e) + |rest|) + rest
    {
      if !e { PatchTest(base, cs, TestSize(cs, false) + |rest|, rest); }
      JumpToHere(test);
    }

    method CodeChar(c: Byte, tt: int)
      requires tt < |code|
      modifies this
      ensures code == old(code) + LpegGen.CodeChar(c, TestAt(old(code), tt))
    {
      if tt >= 0 && code[tt].ITestChar? && code[tt].c == c {
        var _ := AddWithOperands(IAny);
      } else {
        var _ := AddWithOperands(IChar(c));
      }
    }

    method CodeCharset(cs: Charset, tt: int)
      requires tt < |code|
      modifies this
      ensures code == old(code) + LpegGen.CodeCharset(cs, TestAt(old(code), tt))
    {
      match CharsetType(cs) {
        case KChar(c) =>
          CodeChar(c, tt);
        case KSet =>
          if tt >= 0 && code[tt].ITestSet? && code[tt].cs == cs {
            var _ := AddWithOperands(IAny);
          } else {
            var _ := AddWithOperands(ISet(cs));
          }
        case KFail =>
          var _ := AddWithOperands(IFail);
        case KAny =>
          var _ := AddWithOperands(IAny);
      }
    }

    method CodeTestSet(cs: Charset, e: bool) returns (test: int)
      modifies this
      ensures code == old(code) + LpegGen.CodeTestSet(cs, e, 0)
      ensures test == if e then NOINST else old(|code|)
      ensures test < |code|
      ensures TestAt(code, test) == TestOf(cs, e)
    {
      if e {
        test := NOINST;
      } else {
        test := AddWithOperands(TestInstr(cs, 0));
      }
    }

    method CodeGen(t: Tree, opt: bool, tt: int, fl: Charset)
      requires tt < |code|
      modifies this
      ensures code == old(code) + Gen(t, opt, TestAt(old(code), tt), fl)
      decreases t, 4
    {
      hide GetFirst, GenChoice, GenRep, GenNot, GenAnd, CharsetType;
      match t
      case TChar(c) => CodeChar(c, tt);
      case TAny => var _ := AddWithOperands(IAny);
      case TSet(cs) => CodeCharset(cs, tt);
      case TTrue =>
      case TFalse => var _ := AddWithOperands(IFail);
      case TChoice(p1, p2) => CodeChoice(t, opt, fl);
      case TRep(p) => CodeRep(t, opt, fl);
      case TBehind(p, n) => CodeBehind(t);
      case TNot(p) => CodeNot(t);
      case TAnd(p) => CodeAnd(t, tt);
      case TSeq(p1, p2) =>
        var fl1 := if NeedFollow(p1) then GetFirst(p2, fl).cs else FULLSET;
        CodeGen(p1, false, tt, fl1);
        var tt2 := if FixedLen(p1) != 0 then NOINST else tt;
        CodeGen(p2, opt, tt2, fl);
    }

    method CodeBehind(t: Tree)
      requires t.TBehind?
      modifies this
      ensures code == old(code) + (BehindCode(t.n) + Gen(t.p, false, NoTest, FULLSET))
      decreases t, 2
    {
      hide Gen, Emit;
      ghost var base := code;
      if t.n > 0 {
        var _ := AddWithOperands(IBehind(t.n));
      }
      assert code == base + BehindCode(t.n);
      assert TestAt(code, NOINST) == NoTest;
      CodeGen(t.p, false, NOINST, FULLSET);
      assert base + BehindCode(t.n) + Gen(t.p, false, NoTest, FULLSET)
          == base + (BehindCode(t.n) + Gen(t.p, false, NoTest, FULLSET));
    }

    method CodeChoice(t: Tree, opt: bool, fl: Charset)
      requires t.TChoice?
      modifies this
      ensures code == old(code) + GenChoice(t, opt, fl)
      decreases t, 3
    {
      hide Gen, GetFirst, LpegGen.CodeTestSet, TestSize, TestOf, Emit;
      var p1, p2 := t.p1, t.p2;
      var f1 := GetFirst(p1, FULLSET);
      if HeadFail(p1) || (!f1.empty && f1.cs !! GetFirst(p2, fl).cs) {
        CodeTestChoice(p1, p2, t, opt, fl);
      } else if opt && p2 == TTrue {
        var commit := AddWithOperands(IPartialCommit(0));
        PatchToHere(commit, old(code), IPartialCommit(0), []);
        CodeGen(p1, true, NOINST, FULLSET);
      } else {
        CodePlainChoice(p1, p2, t, opt, fl);
      }
    }

    /** Appends both branches behind a test that picks one of them, with a jump over the second one if it is not
        empty. */
    method CodeTestChoice(p1: Tree, p2: Tree, ghost t: Tree, opt: bool, fl: Charset)
      requires t == TChoice(p1, p2)
      modifies this
      ensures var cs := GetFirst(p1, FULLSET).cs;
              var g1, g2 := Gen(p1, false, TestOf(cs, false), fl), Gen(p2, opt, NoTest, fl);
              var l1 := TestSize(cs, false) + |g1| + if p2 == TTrue then 0 else 2;
              code == old(code) + TestChoiceCode(LpegGen.CodeTestSet(cs, false, l1), g1, g2, p2 == TTrue)
      decreases t, 2
    {
      hide Gen, GetFirst, LpegGen.CodeTestSet, TestSize, TestOf, Emit;
      ghost var base := code;
      var cs := GetFirst(p1, FULLSET).cs;
      var test := CodeTestSet(cs, false);
      ghost var g1 := Gen(p1, false, TestOf(cs, false), fl);
      CodeGen(p1, false, test, fl);
      ghost var g2 := Gen(p2, opt, NoTest, fl);
      if p2 == TTrue {
        assert code == base + LpegGen.CodeTestSet(cs, false, 0) + g1;
        PatchTestToHere(test, base, cs, false, g1);
        CodeGen(p2, opt, NOINST, fl);
      } else {
        ghost var size := |code| - |base|;
        var jmp := AddWithOperands(IJmp(0));
        assert code == base + LpegGen.CodeTestSet(cs, false, 0) + (g1 + Emit(IJmp(0)));
        PatchTestToHere(test, base, cs, false, g1 + Emit(IJmp(0)));
        ghost var before := base + LpegGen.CodeTestSet(cs, false, TestSize(cs, false) + |g1| + 2) + g1;
        assert code == before + Emit(IJmp(0));
        CodeGen(p2, opt, NOINST, fl);
        PatchToHere(jmp, before, IJmp(0), g2);
      }
    }

    /** Appends the first branch guarded by a backtrack entry, then the second branch. */
    method CodePlainChoice(p1: Tree, p2: Tree, ghost t: Tree, opt: bool, fl: Charset)
      requires t == TChoice(p1, p2)
      modifies this
      ensures var f1 := GetFirst(p1, FULLSET);
              var g1, g2 := Gen(p1, p2 == TTrue, TestOf(f1.cs, f1.empty), FULLSET), Gen(p2, opt, NoTest, fl);
              var l1 := TestSize(f1.cs, f1.empty) + 2 + |g1| + 2;
              code == old(code) + PlainChoiceCode(LpegGen.CodeTestSet(f1.cs, f1.empty, l1), g1, g2)
      decreases t, 2
    {
      hide Gen, GetFirst, LpegGen.CodeTestSet, TestSize, TestOf, Emit;
      var pcommit := CodeFirstBranch(p1, t, p2 == TTrue);
      ghost var before := code[..pcommit];
      assert code == before + Emit(ICommit(0));
      CodeGen(p2, opt, NOINST, fl);
      PatchToHere(pcommit, before, ICommit(0), Gen(p2, opt, NoTest, fl));
    }

    /** Appends the test, the backtrack entry and the first branch, and returns where its commit is, which still
        has to be told how far to go. */
    method CodeFirstBranch(p1: Tree, ghost t: Tree, tail: bool) returns (pcommit: nat)
      requires t.TChoice? && p1 == t.p1
      modifies this
      ensures var f1 := GetFirst(p1, FULLSET);
              var g1 := Gen(p1, tail, TestOf(f1.cs, f1.empty), FULLSET);
              var l1 := TestSize(f1.cs, f1.empty) + 2 + |g1| + 2;
              && code == old(code) + LpegGen.CodeTestSet(f1.cs, f1.empty, l1) + Emit(IChoice(2 + |g1| + 2)) + g1
                         + Emit(ICommit(0))
              && pcommit == |code| - 2
      decreases t, 1
    {
      hide Gen, GetFirst, LpegGen.CodeTestSet, TestSize, TestOf, TestAt, Emit;
      ghost var base := code;
      var f1 := GetFirst(p1, FULLSET);
      ghost var g1 := Gen(p1, tail, TestOf(f1.cs, f1.empty), FULLSET);
      var test := CodeTestSet(f1.cs, f1.empty);
      pcommit := CodeUnderChoice(p1, t, tail, test, ICommit(0));
      ghost var rest := Emit(IChoice(2 + |g1| + 2)) + g1 + Emit(ICommit(0));
      assert code == base + LpegGen.CodeTestSet(f1.cs, f1.empty, 0) + rest;
      PatchTestToHere(test, base, f1.cs, f1.empty, rest);
    }

    /** Appends a pattern between a backtrack entry that leads past it and one closing instruction. */
    method CodeUnderChoice(p: Tree, ghost t: Tree, opt: bool, tt: int, last: Instr) returns (plast: nat)
      requires tt < |code| && ((t.TChoice? && p == t.p1) || (t.TNot? && p == t.p) || (t.TAnd? && p == t.p))
      modifies this
      ensures var g := Gen(p, opt, TestAt(old(code), tt), FULLSET);
              && code == old(code) + Emit(IChoice(2 + |g| + SizeI(last))) + g + Emit(last)
              && plast == |old(code)| + 2 + |g|
      decreases t, 0
    {
      hide Gen, Emit;
      ghost var base := code;
      ghost var g := Gen(p, opt, TestAt(code, tt), FULLSET);
      var pchoice := AddWithOperands(IChoice(0));
      assert TestAt(code, tt) == TestAt(base, tt);
      CodeGen(p, opt, tt, FULLSET);
      plast := AddWithOperands(last);
      assert code == base + Emit(IChoice(0)) + (g + Emit(last));
      PatchToHere(pchoice, base, IChoice(0), g + Emit(last));
    }

    method CodeRep(t: Tree, opt: bool, fl: Charset)
      requires t.TRep?
      modifies this
      ensures code == old(code) + GenRep(t, opt, fl)
      decreases t, 3
    {
      hide Gen, GetFirst, LpegGen.CodeTestSet, TestSize, TestOf, Emit;
      var p := t.p;
      var f := GetFirst(p, FULLSET);
      if ToCharset(p).Some? {
        var _ := AddWithOperands(ISpan(ToCharset(p).value));
      } else if HeadFail(p) || (!f.empty && f.cs !! fl) {
        CodeTestLoop(p, t);
      } else {
        CodeChoiceLoop(p, t, opt);
      }
    }

    /** Appends a loop that a failing test at its head leaves, without a backtrack entry. */
    method CodeTestLoop(p: Tree, ghost t: Tree)
      requires t == TRep(p)
      modifies this
      ensures var cs := GetFirst(p, FULLSET).cs;
              var g := Gen(p, false, TestOf(cs, false), FULLSET);
              code == old(code) + TestLoopCode(LpegGen.CodeTestSet(cs, false, TestSize(cs, false) + |g| + 2), g)
      decreases t, 2
    {
      hide Gen, GetFirst, LpegGen.CodeTestSet, TestSize, TestOf, Emit;
      ghost var base := code;
      var cs := GetFirst(p, FULLSET).cs;
      var test := CodeTestSet(cs, false);
      ghost var g := Gen(p, false, TestOf(cs, false), FULLSET);
      CodeGen(p, false, test, FULLSET);
      var jmp := AddWithOperands(IJmp(0));
      assert code == base + LpegGen.CodeTestSet(cs, false, 0) + (g + Emit(IJmp(0)));
      PatchTestToHere(test, base, cs, false, g + Emit(IJmp(0)));
      ghost var before := base + LpegGen.CodeTestSet(cs, false, TestSize(cs, false) + |g| + 2) + g;
      assert code == before + Emit(IJmp(0)) + [];
      PatchEmit(before, IJmp(0), test - jmp, []);
      JumpToThere(jmp, test);
    }

    /** Appends a loop under a backtrack entry that every round moves on: an entry of its own, or with `opt` the
        one that is there already. */
    method CodeChoiceLoop(p: Tree, ghost t: Tree, opt: bool)
      requires t == TRep(p)
      modifies this
      ensures var f := GetFirst(p, FULLSET);
              var g := Gen(p, false, NoTest, FULLSET);
              var end := TestSize(f.cs, f.empty) + 2 + |g| + 2;
              code == old(code) + ChoiceLoopCode(LpegGen.CodeTestSet(f.cs, f.empty, end), g, opt)
      decreases t, 2
    {
      hide Gen, GetFirst, LpegGen.CodeTestSet, TestSize, TestOf, TestAt, Emit;
      ghost var base := code;
      var f := GetFirst(p, FULLSET);
      ghost var g := Gen(p, false, NoTest, FULLSET);
      var test := CodeTestSet(f.cs, f.empty);
      CodeEntryAndBody(p, t, opt);
      ghost var rest := Emit(LoopEntry(g, opt)) + g + Emit(IPartialCommit(-|g|));
      assert code == base + LpegGen.CodeTestSet(f.cs, f.empty, 0) + rest;
      PatchTestToHere(test, base, f.cs, f.empty, rest);
    }

    /** Appends the entry, and the loop behind it. */
    method CodeEntryAndBody(p: Tree, ghost t: Tree, opt: bool)
      requires t == TRep(p)
      modifies this
      ensures var g := Gen(p, false, NoTest, FULLSET);
              code == old(code) + (Emit(LoopEntry(g, opt)) + g + Emit(IPartialCommit(-|g|)))
      decreases t, 1
    {
      hide Gen, Emit;
      ghost var before := code;
      ghost var g := Gen(p, false, NoTest, FULLSET);
      var pchoice := NOINST;
      if opt {
        var commit := AddWithOperands(IPartialCommit(0));
        PatchToHere(commit, before, IPartialCommit(0), []);
      } else {
        pchoice := AddWithOperands(IChoice(0));
      }
      CodeLoopBody(p, t);
      ghost var back := Emit(IPartialCommit(-|g|));
      if opt {
        JumpToHere(pchoice);
      } else {
        assert code == before + Emit(IChoice(0)) + (g + back);
        PatchToHere(pchoice, before, IChoice(0), g + back);
      }
      assert code == before + (Emit(LoopEntry(g, opt)) + g + back);
    }

    /** Appends one round of such a loop and the way back to its start. */
    method CodeLoopBody(p: Tree, ghost t: Tree)
      requires t == TRep(p)
      modifies this
      ensures var g := Gen(p, false, NoTest, FULLSET);
              code == old(code) + (g + Emit(IPartialCommit(-|g|)))
      decreases t, 0
    {
      hide Gen, Emit;
      ghost var g := Gen(p, false, NoTest, FULLSET);
      var l2 := |code|;
      CodeGen(p, false, NOINST, FULLSET);
      ghost var mid := code;
      var commit := AddWithOperands(IPartialCommit(0));
      PatchEmit(mid, IPartialCommit(0), -|g|, []);
      assert code == mid + Emit(IPartialCommit(0)) + [];
      JumpToThere(commit, l2);
    }

    method CodeNot(t: Tree)
      requires t.TNot?
      modifies this
      ensures code == old(code) + GenNot(t)
      decreases t, 2
    {
      hide Gen, GetFirst, LpegGen.CodeTestSet, TestSize, TestOf, Emit;
      ghost var base := code;
      var p := t.p;
      var f := GetFirst(p, FULLSET);
      var test := CodeTestSet(f.cs, f.empty);
      ghost var before := code;
      if HeadFail(p) {
        var _ := AddWithOperands(IFail);
        PatchTestToHere(test, base, f.cs, f.empty, Emit(IFail));
      } else {
        ghost var g := Gen(p, false, NoTest, FULLSET);
        var _ := CodeUnderChoice(p, t, false, NOINST, IFailTwice);
        ghost var rest := Emit(IChoice(2 + |g| + 1)) + g + Emit(IFailTwice);
        assert code == base + LpegGen.CodeTestSet(f.cs, f.empty, 0) + rest;
        PatchTestToHere(test, base, f.cs, f.empty, rest);
      }
    }

    method CodeAnd(t: Tree, tt: int)
      requires t.TAnd? && tt < |code|
      modifies this
      ensures code == old(code) + GenAnd(t, TestAt(old(code), tt))
      decreases t, 2
    {
      hide Gen, FixedLen, Emit;
      ghost var base := code;
      var n := FixedLen(t.p);
      ghost var g := Gen(t.p, false, TestAt(code, tt), FULLSET);
      if 0 <= n <= MAX_BEHIND {
        CodeGen(t.p, false, tt, FULLSET);
        if n > 0 {
          var _ := AddWithOperands(IBehind(n));
        }
      } else {
        var pcommit := CodeUnderChoice(t.p, t, false, tt, IBackCommit(0));
        ghost var before := base + Emit(IChoice(2 + |g| + 2)) + g;
        var _ := AddWithOperands(IFail);
        PatchToHere(pcommit, before, IBackCommit(0), Emit(IFail));
      }
    }

    // -------------------------------------------------------------------------
    // peephole
    // -------------------------------------------------------------------------

    /** Follows jumps from `i` on until an instruction that is none. */
    method FindFinalTarget(i: nat, ghost rank: seq<nat>) returns (j: int)
      requires Ranked(code, rank) && i < |code|
      ensures j == FinalTarget(code, rank, i)
    {
      j := i;
      while code[j].IJmp?
        invariant 0 <= j < |code| && FinalTarget(code, rank, j) == FinalTarget(code, rank, i)
        decreases rank[j]
      {
        j := Target(code, j);
      }
    }

    /** Lets a label skip all jumps in between. */
    method OptimizeLabel(i: nat, ghost rank: seq<nat>)
      requires Optimizable(code, rank) && i < |code| && HasLabel(code[i])
      requires code[i].IJmp? ==> var ft := FinalTarget(code, rank, i); !JumpsAway(code[ft]) && !CommitLike(code[ft])
      modifies this
      ensures Optimizable(code, rank) && KeepsRuns(old(code), code)
      ensures RewritesAt(old(code), code, i) && Straight(code, i) && SizeI(code[i]) == SizeI(old(code)[i])
    {
      hide KeepsRuns;
      var ft := FindFinalTarget(Target(code, i), rank);
      LabelRewrite(code, rank, i, ft);
      JumpToThere(i, ft);
    }

    /** Replaces a jump by what it leads to, if that leaves for elsewhere in any case; otherwise shortens it. */
    method OptimizeJump(i: nat, ghost rank: seq<nat>)
      requires Optimizable(code, rank) && i < |code| && code[i].IJmp?
      modifies this
      ensures Optimizable(code, rank) && KeepsRuns(old(code), code)
      ensures RewritesAt(old(code), code, i) && Straight(code, i)
    {
      hide KeepsRuns, JumpsPadded;
      var ft := FindFinalTarget(i, rank);
      if JumpsAway(code[ft]) {
        JumpAwayRewrite(code, rank, i);
        code := code[i := code[ft]][i + 1 := IAny];
      } else if CommitLike(code[ft]) {
        var fft := FindFinalTarget(Target(code, ft), rank);
        JumpCommitRewrite(code, rank, i, fft);
        code := code[i := WithOffset(code[ft], fft - i)];
        ghost var mid := code;
        OptimizeLabel(i, rank);
        KeepsRunsTrans(old(code), mid, code);
      } else {
        OptimizeLabel(i, rank);
      }
    }

    /** The whole pass: no run changes, no label leads to a jump any more, and a jump is left only where nothing better
        can be in its place. */
    method Peephole(ghost rank: seq<nat>)
      requires Optimizable(code, rank)
      modifies this
      ensures KeepsRuns(old(code), code) && |code| == |old(code)| && AllStraight(code, 0)
    {
      var i := 0;
      while i < |code|
        invariant Optimizable(code, rank) && KeepsRuns(old(code), code) && |code| == |old(code)|
        invariant StraightTo(code, 0, i)
        decreases |code| - i
      {
        hide KeepsRuns, Straight, StraightTo;
        ghost var before := code;
        if code[i].IJmp? {
          OptimizeJump(i, rank);
        } else if HasLabel(code[i]) {
          OptimizeLabel(i, rank);
        } else {
          NoLabel(code, i);
        }
        KeepsRunsTrans(old(code), before, code);
        StraightToStays(before, code, i, 0);
        StraightToNext(code, 0, i);
        i := i + SizeI(code[i]);
      }
      StraightToEnd(code, 0, i);
    }
  }

  lemma NoLabel(code: seq<Instr>, i: nat)
    requires i < |code| && !HasLabel(code[i])
    ensures Straight(code, i) && RewritesAt(code, code, i)
  {
  }

  /** `compile`: the code ends every match as the semantics of the tree says. */
  method Compile(t: Tree) returns (code: seq<Instr>)
    requires WellFormed(t)
    ensures forall s: seq<Byte>, i: nat | i <= |s| :: Reaches(code, s, Start(i), Expected(t, s, i))
    ensures |code| == |GenPattern(t)| && AllStraight(code, 0)
  {
    hide AllStraight, Gen, Emit, Ranked, JumpsPadded, Reaches, Peg;
    var compst := new CompileState();
    compst.CodeGen(t, false, NOINST, FULLSET);
    var _ := compst.AddWithOperands(IEnd);
    ghost var rank := PatternRanked(t);
    assert compst.code == GenPattern(t);
    compst.Peephole(rank);
    code := compst.code;
    forall s: seq<Byte>, i: nat | i <= |s|
      ensures Reaches(code, s, Start(i), Expected(t, s, i))
    {
      GenPatternSound(t, s, i);
    }
  }

  // ---------------------------------------------------------------------------
  // match
  // ---------------------------------------------------------------------------

  /** The result that `match` returns for the way a run ends. */
  ghost function Ending(r: Option<nat>): Config {
    if r.Some? then Matched(r.value) else GaveUp
  }

  /** The interpreter loop, for a run that ends after `n` instructions. */
  method RunMatch(code: seq<Instr>, subject: seq<Byte>, i: nat, ghost n: nat) returns (r: Option<nat>)
    requires i <= |subject|
    requires var e := Steps(code, subject, Start(i), n); e.Matched? || e.GaveUp?
    ensures Steps(code, subject, Start(i), n) == Ending(r)
  {
    var p, s, stack := 0, i, [Entry(GIVEUP, i)];
    ghost var left := n;
    while true
      invariant Steps(code, subject, Run(p, s, stack), left) == Steps(code, subject, Start(i), n)
      decreases left
    {
      ghost var c := Run(p, s, stack);
      assert left > 0;
      assert Steps(code, subject, c, left) == Steps(code, subject, Step(code, subject, c), left - 1);
      if !Step(code, subject, c).Run? { HaltedStays(code, subject, Step(code, subject, c), left - 1); }
      hide Steps;
      left := left - 1;
      if p == GIVEUP {
        return None;
      }
      var fail := false;
      match code[p] {
        case IEnd =>
          return Some(s);
        case IAny =>
          if s < |subject| { p, s := p + 1, s + 1; } else { fail := true; }
        case ITestAny(off) =>
          if s < |subject| { p := p + 2; } else { p := p + off; }
        case IChar(ch) =>
          if s < |subject| && subject[s] == ch { p, s := p + 1, s + 1; } else { fail := true; }
        case ITestChar(ch, off) =>
          if s < |subject| && subject[s] == ch { p := p + 2; } else { p := p + off; }
        case ISet(cs) =>
          if s < |subject| && subject[s] in cs { p, s := p + CHARSET_INST_SIZE, s + 1; } else { fail := true; }
        case ITestSet(cs, off) =>
          if s < |subject| && subject[s] in cs { p := p + 1 + CHARSET_INST_SIZE; } else { p := p + off; }
        case IBehind(back) =>
          if back > s { fail := true; } else { p, s := p + 1, s - back; }
        case ISpan(cs) =>
          ghost var s0 := s;
          while s < |subject| && subject[s] in cs
            invariant s <= |subject| && Span(cs, subject, s) == Span(cs, subject, s0)
          {
            s := s + 1;
          }
          p := p + CHARSET_INST_SIZE;
        case IJmp(off) =>
          p := p + off;
        case IChoice(off) =>
          stack := stack + [Entry(p + off, s)];
          p := p + 2;
        case ICommit(off) =>
          stack := stack[..|stack| - 1];
          p := p + off;
        case IPartialCommit(off) =>
          stack := stack[..|stack| - 1] + [Entry(stack[|stack| - 1].p, s)];
          p := p + off;
        case IBackCommit(off) =>
          s := stack[|stack| - 1].s;
          stack := stack[..|stack| - 1];
          p := p + off;
        case IFailTwice =>
          stack := stack[..|stack| - 1];
          fail := true;
        case IFail =>
          fail := true;
        case Pad =>
          assert false;
      }
      if fail {
        p, s := stack[|stack| - 1].p, stack[|stack| - 1].s;
        stack := stack[..|stack| - 1];
      }
    }
  }

  /** Compiling a pattern and matching with the result is the PEG semantics of the pattern. */
  method CompileAndMatch(t: Tree, subject: seq<Byte>, i: nat) returns (r: Option<nat>)
    requires WellFormed(t) && i <= |subject|
    ensures r == Peg(t, subject, i)
  {
    var code := Compile(t);
    assert Reaches(code, subject, Start(i), Expected(t, subject, i));
    ghost var n: nat :| Steps(code, subject, Start(i), n) == Expected(t, subject, i);
    r := RunMatch(code, subject, i, n);
  }
}
