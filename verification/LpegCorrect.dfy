/** The generated code does what the tree means: every optimisation of 3rd/lpeg/lpcode.c
    (first and follow sets, head-fail tests, dominating tests, reuse of an enclosing choice)
    is sound for every well-formed tree, subject and start position. */
module LpegCorrect {
  import opened LpegTree
  import opened LpegVm
  import opened LpegGen
  import opened LpegRun

  /** The dominating test has succeeded at the current position. */
  ghost predicate TestHolds(tt: Test, s: seq<Byte>, i: nat) {
    match tt
    case OnChar(c) => i < |s| && s[i] == c
    case OnSet(cs) => i < |s| && s[i] in cs
    case _ => true
  }

  ghost predicate NextIn(cs: Charset, s: seq<Byte>, i: nat) {
    i < |s| && s[i] in cs
  }

  /** What `codetestset` does: fall through when the next character is in the set, else jump. */
  lemma TestSetRuns(code: seq<Instr>, pc: int, cs: Charset, off: int, s: seq<Byte>, i: nat, stack: seq<Entry>)
    requires At(code, pc, CodeTestSet(cs, false, off)) && i <= |s|
    ensures Step(code, s, Run(pc, i, stack))
         == Run(if NextIn(cs, s, i) then pc + TestSize(cs, false) else pc + off, i, stack)
    ensures NextIn(cs, s, i) ==> TestHolds(TestOf(cs, false), s, i)
  {
    AtEmit(code, pc, TestInstr(cs, off));
  }

  /** A pattern whose first set excludes the next character fails, if tests are allowed for it. */
  lemma FirstMisses(p: Tree, s: seq<Byte>, i: nat)
    requires WellFormed(p) && i <= |s| && !GetFirst(p, FULLSET).empty
    requires !NextIn(GetFirst(p, FULLSET).cs, s, i)
    ensures Peg(p, s, i).None?
  {
    if i < |s| { GetFirstSound(p, FULLSET, s, i); } else { NotEmptyFailsAtEnd(p, FULLSET, s); }
  }

  /** The test that `codetestset` may put in front of the code of `p`: does the run go on to the code? */
  ghost predicate Passes(p: Tree, s: seq<Byte>, i: nat) {
    var f := GetFirst(p, FULLSET);
    f.empty || NextIn(f.cs, s, i)
  }

  lemma MaybeTestRuns(p: Tree, code: seq<Instr>, pc: int, off: int, s: seq<Byte>, i: nat, stack: seq<Entry>)
    requires WellFormed(p) && i <= |s|
    requires var f := GetFirst(p, FULLSET); At(code, pc, CodeTestSet(f.cs, f.empty, off))
    ensures var f := GetFirst(p, FULLSET);
            Reaches(code, s, Run(pc, i, stack),
                    Run(if Passes(p, s, i) then pc + TestSize(f.cs, f.empty) else pc + off, i, stack))
    ensures Passes(p, s, i) ==>
              var f := GetFirst(p, FULLSET); TestHolds(TestOf(f.cs, f.empty), s, i)
    ensures !Passes(p, s, i) ==> Peg(p, s, i).None?
  {
    var f := GetFirst(p, FULLSET);
    if f.empty {
      ReachesRefl(code, s, Run(pc, i, stack));
    } else {
      TestSetRuns(code, pc, f.cs, off, s, i, stack);
      ReachesStep(code, s, Run(pc, i, stack));
      if !Passes(p, s, i) { FirstMisses(p, s, i); }
    }
  }

  /** What is known before a piece of generated code runs. */
  ghost predicate Ready(t: Tree, opt: bool, fl: Charset, s: seq<Byte>, i: nat, stack: seq<Entry>) {
    WellFormed(t) && i <= |s| && OptOk(opt, fl, stack)
  }

  /** The theorem for subtrees: generated code, anywhere in a program and over any stack, has the
      outcome that the semantics asks for. */
  lemma {:induction false} GenSound(t: Tree, opt: bool, tt: Test, fl: Charset, code: seq<Instr>, pc: int,
                                    s: seq<Byte>, i: nat, stack: seq<Entry>)
    requires Ready(t, opt, fl, s, i, stack) && TestHolds(tt, s, i)
    requires At(code, pc, Gen(t, opt, tt, fl))
    ensures Outcome(Peg(t, s, i), opt, fl, code, pc, pc + |Gen(t, opt, tt, fl)|, s, i, stack)
    decreases t, |s| - i, 3
  {
    hide GenChoice, GenRep, GenNot, GenAnd, CodeCharset, GetFirst, Outcome, PlainOutcome, At;
    if t.TChoice? {
      ChoiceSound(t, opt, fl, code, pc, s, i, stack);
    } else if t.TRep? {
      RepSound(t, opt, fl, code, pc, s, i, stack);
    } else if t.TSeq? {
      SeqSound(t, opt, tt, fl, code, pc, s, i, stack);
    } else {
      if t.TBehind? { BehindSound(t, opt, tt, fl, code, pc, s, i, stack); }
      else if t.TNot? { NotSound(t, fl, code, pc, s, i, stack); }
      else if t.TAnd? { AndSound(t, tt, fl, code, pc, s, i, stack); }
      else { LeafSound(t, opt, tt, fl, code, pc, s, i, stack); }
      PlainIsOutcome(Peg(t, s, i), opt, fl, code, pc, pc + |Gen(t, opt, tt, fl)|, s, i, stack);
    }
  }

  lemma LeafSound(t: Tree, opt: bool, tt: Test, fl: Charset, code: seq<Instr>, pc: int,
                  s: seq<Byte>, i: nat, stack: seq<Entry>)
    requires t.TChar? || t.TSet? || t.TAny? || t.TTrue? || t.TFalse?
    requires i <= |s| && At(code, pc, Gen(t, opt, tt, fl)) && TestHolds(tt, s, i)
    ensures PlainOutcome(Peg(t, s, i), fl, code, pc, pc + |Gen(t, opt, tt, fl)|, s, i, stack)
  {
    var from := Run(pc, i, stack);
    if t.TTrue? {
      ReachesRefl(code, s, from);
    } else {
      var ins := Gen(t, opt, tt, fl)[0];
      AtEmit(code, pc, ins);
      ReachesStep(code, s, from);
    }
  }

  lemma {:induction false} SeqSound(t: Tree, opt: bool, tt: Test, fl: Charset, code: seq<Instr>, pc: int,
                                    s: seq<Byte>, i: nat, stack: seq<Entry>)
    requires t.TSeq? && Ready(t, opt, fl, s, i, stack) && TestHolds(tt, s, i)
    requires At(code, pc, Gen(t, opt, tt, fl))
    ensures Outcome(Peg(t, s, i), opt, fl, code, pc, pc + |Gen(t, opt, tt, fl)|, s, i, stack)
    decreases t, |s| - i, 2
  {
    hide GenChoice, GenRep, GenNot, GenAnd, CodeCharset, TailOutcome, PlainOutcome;
    var p1, p2 := t.p1, t.p2;
    var fl1 := FollowOf(p1, p2, fl);
    var g1 := Gen(p1, false, tt, fl1);
    var tt2 := if FixedLen(p1) != 0 then NoTest else tt;
    var g2 := Gen(p2, opt, tt2, fl);
    AtSplit(code, pc, g1, g2);
    GenSound(p1, false, tt, fl1, code, pc, s, i, stack);
    var r1 := Peg(p1, s, i);
    var r2 := if r1.Some? then Peg(p2, s, r1.value) else None;
    if r1.Some? {
      if FixedLen(p1) == 0 { FixedLenSound(p1, s, i); }
      GenSound(p2, opt, tt2, fl, code, pc + |g1|, s, r1.value, stack);
      if FollowFails(fl1, s, r1.value) { GetFirstSound(p2, fl, s, r1.value); }
    }
    SeqRuns(r1, r2, opt, fl1, fl, code, pc, pc + |g1|, pc + |g1| + |g2|, s, i, stack);
  }

  lemma {:induction false} ChoiceSound(t: Tree, opt: bool, fl: Charset, code: seq<Instr>, pc: int,
                                       s: seq<Byte>, i: nat, stack: seq<Entry>)
    requires t.TChoice? && Ready(t, opt, fl, s, i, stack) && At(code, pc, GenChoice(t, opt, fl))
    ensures Outcome(Peg(t, s, i), opt, fl, code, pc, pc + |GenChoice(t, opt, fl)|, s, i, stack)
    decreases t, |s| - i, 2
  {
    hide Gen, GetFirst, TestOf, CodeTestSet, Emit, Reaches;
    if TestDecides(t.p1, t.p2, fl) {
      TestChoiceSound(t, opt, fl, code, pc, s, i, stack);
    } else if opt && t.p2 == TTrue {
      TailOptionSound(t, fl, code, pc, s, i, stack);
    } else {
      PlainChoiceSound(t, opt, fl, code, pc, s, i, stack);
    }
  }

  /** `p?` at the tail of an optional pattern. */
  lemma {:induction false} TailOptionSound(t: Tree, fl: Charset, code: seq<Instr>, pc: int,
                                           s: seq<Byte>, i: nat, stack: seq<Entry>)
    requires t.TChoice? && t.p2 == TTrue && Ready(t, true, fl, s, i, stack) && At(code, pc, GenChoice(t, true, fl))
    requires !TestDecides(t.p1, t.p2, fl)
    ensures TailOutcome(Peg(t, s, i), code, pc, pc + |GenChoice(t, true, fl)|, s, i, stack)
    decreases t, |s| - i, 1
  {
    hide Gen, GetFirst, TestOf, CodeTestSet, Emit, Reaches;
    var g1 := Gen(t.p1, true, NoTest, FULLSET);
    AtSplit(code, pc, Emit(IPartialCommit(2)), g1);
    AtEmit(code, pc, IPartialCommit(2));
    GenSound(t.p1, true, NoTest, FULLSET, code, pc + 2, s, i, Retop(stack, i));
    TailOptionRuns(Peg(t.p1, s, i), code, pc, pc + 2 + |g1|, s, i, stack);
  }

  /** When the first branch fails although the test let it run, the second one cannot go on either. */
  lemma SecondBranchHopeless(p1: Tree, p2: Tree, fl: Charset, s: seq<Byte>, i: nat)
    requires WellFormed(p1) && WellFormed(p2) && i <= |s| && TestDecides(p1, p2, fl)
    requires NextIn(GetFirst(p1, FULLSET).cs, s, i) && Peg(p1, s, i).None?
    ensures Peg(p2, s, i).None? || FollowFails(fl, s, Peg(p2, s, i).value)
  {
    if HeadFail(p1) { HeadFailExact(p1, s, i); }
    GetFirstSound(p2, fl, s, i);
  }

  lemma TestMissFails(p: Tree, s: seq<Byte>, i: nat)
    requires WellFormed(p) && i <= |s| && (HeadFail(p) || !GetFirst(p, FULLSET).empty)
    requires !NextIn(GetFirst(p, FULLSET).cs, s, i)
    ensures Peg(p, s, i).None?
  {
    if HeadFail(p) { HeadFailExact(p, s, i); } else { FirstMisses(p, s, i); }
  }

  /** `p1 / p2` decided by a test on the next character. */
  lemma {:induction false} TestChoiceSound(t: Tree, opt: bool, fl: Charset, code: seq<Instr>, pc: int,
                                           s: seq<Byte>, i: nat, stack: seq<Entry>)
    requires t.TChoice? && Ready(t, opt, fl, s, i, stack) && At(code, pc, GenChoice(t, opt, fl))
    requires TestDecides(t.p1, t.p2, fl)
    ensures Outcome(Peg(t, s, i), opt, fl, code, pc, pc + |GenChoice(t, opt, fl)|, s, i, stack)
    decreases t, |s| - i, 1
  {
    hide Gen, GetFirst, TestOf, CodeTestSet, TestSize, Step, JumpOver, Is, Emit, Reaches;
    var p1, p2 := t.p1, t.p2;
    var cs := GetFirst(p1, FULLSET).cs;
    var tt := TestOf(cs, false);
    var g1, g2 := Gen(p1, false, tt, fl), Gen(p2, opt, NoTest, fl);
    var k := TestSize(cs, false);
    var l1 := k + |g1| + if p2 == TTrue then 0 else 2;
    var hit := NextIn(cs, s, i);
    TestChoiceParts(code, pc, CodeTestSet(cs, false, l1), g1, g2, p2 == TTrue);
    TestSetRuns(code, pc, cs, l1, s, i, stack);
    JumpOverIs(code, pc + k + |g1|, p2, opt, fl);
    if hit { GenSound(p1, false, tt, fl, code, pc + k, s, i, stack); } else { TestMissFails(p1, s, i); }
    GenSound(p2, opt, NoTest, fl, code, pc + l1, s, i, stack);
    if hit && Peg(p1, s, i).None? { SecondBranchHopeless(p1, p2, fl, s, i); }
    TestChoiceRuns(Peg(p1, s, i), Peg(p2, s, i), hit, opt, fl, code, pc, pc + k, pc + k + |g1|, pc + l1,
                   pc + l1 + |g2|, s, i, stack);
  }

  lemma JumpOverIs(code: seq<Instr>, mid: int, p2: Tree, opt: bool, fl: Charset)
    requires At(code, mid, JumpOver(Gen(p2, opt, NoTest, fl), p2 == TTrue))
    ensures p2 == TTrue ==> |Gen(p2, opt, NoTest, fl)| == 0
    ensures p2 != TTrue ==> Is(code, mid, IJmp(2 + |Gen(p2, opt, NoTest, fl)|))
  {
    if p2 != TTrue { AtEmit(code, mid, IJmp(2 + |Gen(p2, opt, NoTest, fl)|)); }
  }

  /** `p1 / p2` with a choice of its own. */
  lemma {:induction false} PlainChoiceSound(t: Tree, opt: bool, fl: Charset, code: seq<Instr>, pc: int,
                                            s: seq<Byte>, i: nat, stack: seq<Entry>)
    requires t.TChoice? && Ready(t, opt, fl, s, i, stack) && At(code, pc, GenChoice(t, opt, fl))
    requires !TestDecides(t.p1, t.p2, fl) && !(opt && t.p2 == TTrue)
    ensures Outcome(Peg(t, s, i), opt, fl, code, pc, pc + |GenChoice(t, opt, fl)|, s, i, stack)
    decreases t, |s| - i, 1
  {
    hide Gen, GetFirst, TestOf, CodeTestSet, TestSize, Passes, Is, Outcome, Emit, Reaches;
    var p1, p2 := t.p1, t.p2;
    var f1 := GetFirst(p1, FULLSET);
    var g1, g2 := Gen(p1, p2 == TTrue, TestOf(f1.cs, f1.empty), FULLSET), Gen(p2, opt, NoTest, fl);
    var l1 := TestSize(f1.cs, f1.empty) + 2 + |g1| + 2;
    PlainChoiceParts(code, pc, CodeTestSet(f1.cs, f1.empty, l1), g1, g2);
    MaybeTestRuns(p1, code, pc, l1, s, i, stack);
    GenSound(p2, opt, NoTest, fl, code, pc + l1, s, i, stack);
    if Passes(p1, s, i) {
      FirstBranchSound(t, opt, fl, code, pc, s, i, stack);
    } else {
      OutcomeVia(Peg(p2, s, i), opt, fl, code, pc, pc + l1, pc + l1 + |g2|, s, i, i, stack);
    }
  }

  /** The case where the test, if there is one, lets the first branch run. */
  lemma {:induction false} FirstBranchSound(t: Tree, opt: bool, fl: Charset, code: seq<Instr>, pc: int,
                                            s: seq<Byte>, i: nat, stack: seq<Entry>)
    requires t.TChoice? && Ready(t, opt, fl, s, i, stack) && At(code, pc, GenChoice(t, opt, fl))
    requires !TestDecides(t.p1, t.p2, fl) && !(opt && t.p2 == TTrue)
    requires Passes(t.p1, s, i)
    requires var g2 := Gen(t.p2, opt, NoTest, fl);
             var end := pc + |GenChoice(t, opt, fl)|;
             |g2| <= end && Outcome(Peg(t.p2, s, i), opt, fl, code, end - |g2|, end, s, i, stack)
    ensures Outcome(Peg(t, s, i), opt, fl, code, pc, pc + |GenChoice(t, opt, fl)|, s, i, stack)
    decreases t, |s| - i, 0
  {
    hide Gen, GetFirst, TestOf, CodeTestSet, TestSize, Passes, Is, Outcome, Emit, Reaches;
    var p1, p2 := t.p1, t.p2;
    var f1 := GetFirst(p1, FULLSET);
    var tt := TestOf(f1.cs, f1.empty);
    var tail := p2 == TTrue;
    var g1, g2 := Gen(p1, tail, tt, FULLSET), Gen(p2, opt, NoTest, fl);
    var k := TestSize(f1.cs, f1.empty);
    var l1 := k + 2 + |g1| + 2;
    PlainChoiceParts(code, pc, CodeTestSet(f1.cs, f1.empty, l1), g1, g2);
    MaybeTestRuns(p1, code, pc, l1, s, i, stack);
    GenSound(p1, tail, tt, FULLSET, code, pc + k + 2, s, i, stack + [Entry(pc + l1, i)]);
    if tail { EmptyGen(opt, fl); }
    PlainChoiceRuns(Peg(p1, s, i), Peg(p2, s, i), opt, tail, fl, code, pc, pc + k, pc + k + 2 + |g1|, pc + l1,
                    pc + l1 + |g2|, s, i, stack);
  }

  lemma EmptyGen(opt: bool, fl: Charset)
    ensures Gen(TTrue, opt, NoTest, fl) == []
  {
  }

  // ---------------------------------------------------------------------------
  // Repetition
  // ---------------------------------------------------------------------------

  lemma {:induction false} SpanIsRep(p: Tree, s: seq<Byte>, i: nat)
    requires ToCharset(p).Some? && i <= |s|
    ensures Peg(TRep(p), s, i) == Some(Span(ToCharset(p).value, s, i))
    decreases |s| - i
  {
    ToCharsetSound(p, s, i);
    if Peg(p, s, i).Some? { SpanIsRep(p, s, i + 1); }
  }

  lemma {:induction false} RepSound(t: Tree, opt: bool, fl: Charset, code: seq<Instr>, pc: int,
                                    s: seq<Byte>, i: nat, stack: seq<Entry>)
    requires t.TRep? && Ready(t, opt, fl, s, i, stack) && At(code, pc, GenRep(t, opt, fl))
    ensures Outcome(Peg(t, s, i), opt, fl, code, pc, pc + |GenRep(t, opt, fl)|, s, i, stack)
    decreases t, |s| - i, 2
  {
    hide Gen, GetFirst, TestOf, CodeTestSet, TestSize, Emit, Reaches;
    var p := t.p;
    if ToCharset(p).Some? {
      SpanIsRep(p, s, i);
      AtEmit(code, pc, ISpan(ToCharset(p).value));
      ReachesStep(code, s, Run(pc, i, stack));
      PlainIsOutcome(Peg(t, s, i), opt, fl, code, pc, pc + |GenRep(t, opt, fl)|, s, i, stack);
    } else if TestEndsLoop(p, fl) {
      TestLoopSound(t, opt, fl, code, pc, s, i, stack);
      PlainIsOutcome(Peg(t, s, i), opt, fl, code, pc, pc + |GenRep(t, opt, fl)|, s, i, stack);
    } else {
      ChoiceLoopSound(t, opt, fl, code, pc, s, i, stack);
    }
  }

  /** The loop of `GenRep` that a test ends. */
  lemma {:induction false} TestLoopSound(t: Tree, opt: bool, fl: Charset, code: seq<Instr>, pc: int,
                                         s: seq<Byte>, i: nat, stack: seq<Entry>)
    requires t.TRep? && WellFormed(t) && i <= |s| && At(code, pc, GenRep(t, opt, fl))
    requires ToCharset(t.p).None? && TestEndsLoop(t.p, fl)
    ensures PlainOutcome(Peg(t, s, i), fl, code, pc, pc + |GenRep(t, opt, fl)|, s, i, stack)
    decreases t, |s| - i, 1
  {
    hide Gen, GetFirst, TestOf, CodeTestSet, TestSize, Step, Is, Emit, Reaches;
    var p := t.p;
    var cs := GetFirst(p, FULLSET).cs;
    var tt := TestOf(cs, false);
    var g := Gen(p, false, tt, FULLSET);
    var k := TestSize(cs, false);
    var hit := NextIn(cs, s, i);
    TestLoopParts(code, pc, CodeTestSet(cs, false, k + |g| + 2), g);
    TestSetRuns(code, pc, cs, k + |g| + 2, s, i, stack);
    RepBodyAdvances(p, s, i);
    var r := Peg(p, s, i);
    if hit { GenSound(p, false, tt, FULLSET, code, pc + k, s, i, stack); } else { TestMissFails(p, s, i); }
    if hit && r.None? { BodyFailsFollowFails(p, fl, s, i); }
    var rest := if r.Some? then Peg(t, s, r.value) else None;
    if r.Some? { TestLoopSound(t, opt, fl, code, pc, s, r.value, stack); }
    TestLoopRuns(r, rest, hit, fl, code, pc, pc + k, pc + k + |g|, pc + k + |g| + 2, s, i, stack);
  }

  /** When the body of a test loop fails although the test let it run, what follows fails here too. */
  lemma BodyFailsFollowFails(p: Tree, fl: Charset, s: seq<Byte>, i: nat)
    requires WellFormed(p) && i <= |s| && TestEndsLoop(p, fl)
    requires NextIn(GetFirst(p, FULLSET).cs, s, i) && Peg(p, s, i).None?
    ensures FollowFails(fl, s, i)
  {
    if HeadFail(p) { HeadFailExact(p, s, i); }
  }

  /** The loop of `GenRep` that a partial commit closes, under a choice that leads to `exit`: the run leaves
      through that choice with the position of the last full repetition. */
  lemma {:induction false} CommitLoopSound(t: Tree, code: seq<Instr>, l1: int, exit: int,
                                           s: seq<Byte>, i: nat, stack: seq<Entry>)
    requires t.TRep? && WellFormed(t) && i <= |s|
    requires var g := Gen(t.p, false, NoTest, FULLSET); At(code, l1, g) && Is(code, l1 + |g|, IPartialCommit(-|g|))
    ensures Peg(t, s, i).Some?
    ensures Reaches(code, s, Run(l1, i, stack + [Entry(exit, i)]), Run(exit, Peg(t, s, i).value, stack))
    decreases t, |s| - i, 0
  {
    hide Gen, Is;
    var p := t.p;
    RepBodyAdvances(p, s, i);
    var r := Peg(p, s, i);
    GenSound(p, false, NoTest, FULLSET, code, l1, s, i, stack + [Entry(exit, i)]);
    if r.Some? { CommitLoopSound(t, code, l1, exit, s, r.value, stack); }
    CommitLoopRuns(r, Peg(t, s, i).value, code, l1, l1 + |Gen(p, false, NoTest, FULLSET)|, exit, s, i, stack);
  }

  lemma {:induction false} ChoiceLoopSound(t: Tree, opt: bool, fl: Charset, code: seq<Instr>, pc: int,
                                           s: seq<Byte>, i: nat, stack: seq<Entry>)
    requires t.TRep? && Ready(t, opt, fl, s, i, stack) && At(code, pc, GenRep(t, opt, fl))
    requires ToCharset(t.p).None? && !TestEndsLoop(t.p, fl)
    ensures Outcome(Peg(t, s, i), opt, fl, code, pc, pc + |GenRep(t, opt, fl)|, s, i, stack)
    decreases t, |s| - i, 1
  {
    hide Gen, GetFirst, TestOf, CodeTestSet, TestSize, Passes, Is, Emit, Reaches;
    var p := t.p;
    var f := GetFirst(p, FULLSET);
    var g := Gen(p, false, NoTest, FULLSET);
    var k := TestSize(f.cs, f.empty);
    var end := k + 2 + |g| + 2;
    var hit := Passes(p, s, i);
    ChoiceLoopParts(code, pc, CodeTestSet(f.cs, f.empty, end), g, opt);
    MaybeTestRuns(p, code, pc, end, s, i, stack);
    RepBodyAdvances(p, s, i);
    var below, exit := if opt then stack[..|stack| - 1] else stack, if opt then stack[|stack| - 1].p else pc + end;
    CommitLoopSound(t, code, pc + k + 2, exit, s, i, below);
    LoopEntryRuns(Peg(t, s, i).value, hit, opt, fl, code, pc, pc + k, pc + end, s, i, stack);
  }

  // ---------------------------------------------------------------------------
  // Predicates
  // ---------------------------------------------------------------------------

  lemma {:induction false} BehindSound(t: Tree, opt: bool, tt: Test, fl: Charset, code: seq<Instr>, pc: int,
                                       s: seq<Byte>, i: nat, stack: seq<Entry>)
    requires t.TBehind? && WellFormed(t) && i <= |s| && At(code, pc, Gen(t, opt, tt, fl))
    ensures PlainOutcome(Peg(t, s, i), fl, code, pc, pc + |Gen(t, opt, tt, fl)|, s, i, stack)
    decreases t, |s| - i, 2
  {
    hide GetFirst, GenChoice, GenRep, GenNot, GenAnd, CodeCharset;
    var p, n := t.p, t.n;
    var g := Gen(p, false, NoTest, FULLSET);
    var k := |BehindCode(n)|;
    AtSplit(code, pc, BehindCode(n), g);
    StepBack(code, pc, n, s, i, stack);
    if n <= i {
      GenSound(p, false, NoTest, FULLSET, code, pc + k, s, i - n, stack);
      FixedLenSound(p, s, i - n);
      OutcomeVia(Peg(p, s, i - n), false, FULLSET, code, pc, pc + k, pc + k + |g|, s, i, i - n, stack);
    }
  }

  /** What `IBehind`, or its absence, does. */
  lemma StepBack(code: seq<Instr>, pc: int, n: nat, s: seq<Byte>, i: nat, stack: seq<Entry>)
    requires At(code, pc, BehindCode(n)) && i <= |s|
    ensures Reaches(code, s, Run(pc, i, stack),
                    if n <= i then Run(pc + |BehindCode(n)|, i - n, stack) else Fail(stack))
  {
    if n > 0 {
      AtEmit(code, pc, IBehind(n));
      ReachesStep(code, s, Run(pc, i, stack));
    } else {
      ReachesRefl(code, s, Run(pc, i, stack));
    }
  }

  /** The code of `GenNot` for a head-fail pattern, which is a test around a failure. */
  lemma HeadNotSound(t: Tree, fl: Charset, code: seq<Instr>, pc: int, s: seq<Byte>, i: nat, stack: seq<Entry>)
    requires t.TNot? && WellFormed(t) && i <= |s| && At(code, pc, GenNot(t)) && HeadFail(t.p)
    ensures PlainOutcome(Peg(t, s, i), fl, code, pc, pc + |GenNot(t)|, s, i, stack)
  {
    var f := GetFirst(t.p, FULLSET);
    var k := TestSize(f.cs, f.empty);
    HeadFailExact(t.p, s, i);
    AtSplit(code, pc, CodeTestSet(f.cs, f.empty, k + 1), Emit(IFail));
    AtEmit(code, pc + k, IFail);
    TestSetRuns(code, pc, f.cs, k + 1, s, i, stack);
    ReachesStep(code, s, Run(pc, i, stack));
    if Peg(t.p, s, i).Some? { ReachesThen(code, s, Run(pc, i, stack), Run(pc + k, i, stack)); }
  }

  lemma {:induction false} NotSound(t: Tree, fl: Charset, code: seq<Instr>, pc: int,
                                    s: seq<Byte>, i: nat, stack: seq<Entry>)
    requires t.TNot? && WellFormed(t) && i <= |s| && At(code, pc, GenNot(t))
    ensures PlainOutcome(Peg(t, s, i), fl, code, pc, pc + |GenNot(t)|, s, i, stack)
    decreases t, |s| - i, 2
  {
    hide Gen, GetFirst, TestOf, CodeTestSet, TestSize, Passes, Is, Emit, Reaches;
    var p := t.p;
    if HeadFail(p) {
      HeadNotSound(t, fl, code, pc, s, i, stack);
    } else {
      var f := GetFirst(p, FULLSET);
      var g := Gen(p, false, NoTest, FULLSET);
      var k := TestSize(f.cs, f.empty);
      var end := pc + k + 2 + |g| + 1;
      NotParts(code, pc, CodeTestSet(f.cs, f.empty, end - pc), g);
      MaybeTestRuns(p, code, pc, end - pc, s, i, stack);
      if Passes(p, s, i) {
        GenSound(p, false, NoTest, FULLSET, code, pc + k + 2, s, i, stack + [Entry(end, i)]);
        NotRuns(Peg(p, s, i), fl, code, pc + k, end - 1, end, s, i, stack);
        OutcomeVia(Peg(t, s, i), false, fl, code, pc, pc + k, end, s, i, i, stack);
      }
    }
  }

  lemma {:induction false} AndSound(t: Tree, tt: Test, fl: Charset, code: seq<Instr>, pc: int,
                                    s: seq<Byte>, i: nat, stack: seq<Entry>)
    requires t.TAnd? && WellFormed(t) && i <= |s| && At(code, pc, GenAnd(t, tt)) && TestHolds(tt, s, i)
    ensures PlainOutcome(Peg(t, s, i), fl, code, pc, pc + |GenAnd(t, tt)|, s, i, stack)
    decreases t, |s| - i, 2
  {
    hide Gen, Is, FixedLen, Emit;
    var p := t.p;
    var n := FixedLen(p);
    var g := Gen(p, false, tt, FULLSET);
    var r := Peg(p, s, i);
    if 0 <= n <= MAX_BEHIND {
      AtSplit(code, pc, g, BehindCode(n));
      GenSound(p, false, tt, FULLSET, code, pc, s, i, stack);
      FixedLenSound(p, s, i);
      if r.Some? {
        StepBack(code, pc + |g|, n, s, r.value, stack);
        ReachesTrans(code, s, Run(pc, i, stack), Run(pc + |g|, r.value, stack), Run(pc + |g + BehindCode(n)|, i, stack));
      }
    } else {
      AndParts(code, pc, g);
      var c := pc + 2 + |g|;
      GenSound(p, false, tt, FULLSET, code, pc + 2, s, i, stack + [Entry(c + 2, i)]);
      AndRuns(r, fl, code, pc, c, s, i, stack);
    }
  }

  // ---------------------------------------------------------------------------
  // Whole patterns
  // ---------------------------------------------------------------------------

  /** How `match` must end on subject `s` from position `i`. */
  function Expected(t: Tree, s: seq<Byte>, i: nat): Config
    requires i <= |s|
  {
    match Peg(t, s, i)
    case Some(j) => Matched(j)
    case None => GaveUp
  }

  /** Before `peephole`: the machine ends as the semantics says, and never gets stuck. */
  lemma {:induction false} GenPatternSound(t: Tree, s: seq<Byte>, i: nat)
    requires WellFormed(t) && i <= |s|
    ensures Reaches(GenPattern(t), s, Start(i), Expected(t, s, i))
  {
    hide Gen, Emit, Reaches;
    var code := GenPattern(t);
    var g := Gen(t, false, NoTest, FULLSET);
    assert code[0..|code|] == code;
    AtSplit(code, 0, g, Emit(IEnd));
    AtEmit(code, |g|, IEnd);
    var stack := [Entry(GIVEUP, i)];
    GenSound(t, false, NoTest, FULLSET, code, 0, s, i, stack);
    EndSteps(code, |g|, s, i, Peg(t, s, i));
    match Peg(t, s, i)
    case Some(j) => ReachesThen(code, s, Start(i), Run(|g|, j, stack));
    case None => ReachesThen(code, s, Start(i), Fail(stack));
  }

  /** The last step of a match. */
  lemma EndSteps(code: seq<Instr>, pc: int, s: seq<Byte>, i: nat, r: Option<nat>)
    requires Is(code, pc, IEnd) && (r.Some? ==> r.value <= |s|)
    ensures var stack := [Entry(GIVEUP, i)];
            if r.Some? then Step(code, s, Run(pc, r.value, stack)) == Matched(r.value)
            else Step(code, s, Fail(stack)) == GaveUp
  {
  }
}
