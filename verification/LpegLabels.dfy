/** Labels of generated code stay inside it, and its chains of jumps end: what `peephole` relies on. */
module LpegLabels {
  import opened LpegTree
  import opened LpegVm
  import opened LpegGen
  import opened LpegRun
  import opened LpegPeephole

  /** A label leads into the code. A jump goes forward, or back to an instruction that is not a jump
      or that jumps over it. */
  ghost predicate LabelOk(code: seq<Instr>, q: int)
    requires 0 <= q < |code|
  {
    HasLabel(code[q]) ==>
      var d := q + code[q].off;
      && 0 <= d < |code|
      && (code[q].IJmp? ==> q + 1 < |code| && code[q + 1] == Pad)
      && (code[q].IJmp? ==> d > q || (d < q && (code[d].IJmp? ==> d + code[d].off > q)))
  }

  ghost predicate LabelsOk(code: seq<Instr>, lo: int, hi: int)
    requires 0 <= lo && hi <= |code|
  {
    forall q :: lo <= q < hi ==> LabelOk(code, q)
  }

  lemma InstrLabelOk(code: seq<Instr>, pc: int, ins: Instr)
    requires Is(code, pc, ins) && LabelOk(code, pc)
    ensures LabelsOk(code, pc, pc + SizeI(ins))
  {
  }

  lemma LabelsJoin(code: seq<Instr>, a: int, b: int, c: int)
    requires 0 <= a <= b <= c <= |code| && LabelsOk(code, a, b) && LabelsOk(code, b, c)
    ensures LabelsOk(code, a, c)
  {
  }

  /** The test in front of a construct that ends inside the code. */
  lemma TestLabelOk(code: seq<Instr>, pc: int, cs: Charset, empty: bool, off: int)
    requires At(code, pc, CodeTestSet(cs, empty, off)) && 0 < off && pc + off < |code|
    ensures LabelsOk(code, pc, pc + TestSize(cs, empty))
  {
    if !empty {
      AtEmit(code, pc, TestInstr(cs, off));
      InstrLabelOk(code, pc, TestInstr(cs, off));
    }
  }

  lemma {:induction false} GenLabels(t: Tree, opt: bool, tt: Test, fl: Charset, code: seq<Instr>, pc: int)
    requires At(code, pc, Gen(t, opt, tt, fl)) && pc + |Gen(t, opt, tt, fl)| < |code|
    ensures LabelsOk(code, pc, pc + |Gen(t, opt, tt, fl)|)
    decreases t, 2
  {
    hide GenChoice, GenRep, GenNot, GenAnd, GetFirst, LabelsOk;
    match t
    case TChoice(p1, p2) => ChoiceLabels(t, opt, fl, code, pc);
    case TRep(p) => RepLabels(t, opt, fl, code, pc);
    case TNot(p) => NotLabels(t, code, pc);
    case TAnd(p) => AndLabels(t, tt, code, pc);
    case TSeq(p1, p2) => SeqLabels(t, opt, tt, fl, code, pc);
    case TBehind(p, n) => BehindLabels(t, opt, tt, fl, code, pc);
    case _ => LeafLabels(t, opt, tt, fl, code, pc);
  }

  lemma LeafLabels(t: Tree, opt: bool, tt: Test, fl: Charset, code: seq<Instr>, pc: int)
    requires t.TChar? || t.TSet? || t.TAny? || t.TTrue? || t.TFalse?
    requires At(code, pc, Gen(t, opt, tt, fl))
    ensures LabelsOk(code, pc, pc + |Gen(t, opt, tt, fl)|)
  {
    if !t.TTrue? {
      AtEmit(code, pc, Gen(t, opt, tt, fl)[0]);
      InstrLabelOk(code, pc, Gen(t, opt, tt, fl)[0]);
    }
  }

  lemma {:induction false} SeqLabels(t: Tree, opt: bool, tt: Test, fl: Charset, code: seq<Instr>, pc: int)
    requires t.TSeq? && At(code, pc, Gen(t, opt, tt, fl)) && pc + |Gen(t, opt, tt, fl)| < |code|
    ensures LabelsOk(code, pc, pc + |Gen(t, opt, tt, fl)|)
    decreases t, 1
  {
    hide GenChoice, GenRep, GenNot, GenAnd, GetFirst, LabelsOk, CodeCharset, CodeChar;
    var fl1 := FollowOf(t.p1, t.p2, fl);
    var tt2 := if FixedLen(t.p1) != 0 then NoTest else tt;
    var g1, g2 := Gen(t.p1, false, tt, fl1), Gen(t.p2, opt, tt2, fl);
    AtSplit(code, pc, g1, g2);
    GenLabels(t.p1, false, tt, fl1, code, pc);
    GenLabels(t.p2, opt, tt2, fl, code, pc + |g1|);
    LabelsJoin(code, pc, pc + |g1|, pc + |g1| + |g2|);
  }

  lemma {:induction false} BehindLabels(t: Tree, opt: bool, tt: Test, fl: Charset, code: seq<Instr>, pc: int)
    requires t.TBehind? && At(code, pc, Gen(t, opt, tt, fl)) && pc + |Gen(t, opt, tt, fl)| < |code|
    ensures LabelsOk(code, pc, pc + |Gen(t, opt, tt, fl)|)
    decreases t, 1
  {
    hide GenChoice, GenRep, GenNot, GenAnd, GetFirst, CodeCharset, CodeChar;
    var g := Gen(t.p, false, NoTest, FULLSET);
    AtSplit(code, pc, BehindCode(t.n), g);
    BehindCodeLabels(code, pc, t.n);
    GenLabels(t.p, false, NoTest, FULLSET, code, pc + |BehindCode(t.n)|);
    LabelsJoin(code, pc, pc + |BehindCode(t.n)|, pc + |BehindCode(t.n)| + |g|);
  }

  lemma BehindCodeLabels(code: seq<Instr>, pc: int, n: nat)
    requires At(code, pc, BehindCode(n))
    ensures LabelsOk(code, pc, pc + |BehindCode(n)|)
  {
    if n > 0 {
      AtEmit(code, pc, IBehind(n));
      InstrLabelOk(code, pc, IBehind(n));
    }
  }

  lemma {:induction false} AndLabels(t: Tree, tt: Test, code: seq<Instr>, pc: int)
    requires t.TAnd? && At(code, pc, GenAnd(t, tt)) && pc + |GenAnd(t, tt)| < |code|
    ensures LabelsOk(code, pc, pc + |GenAnd(t, tt)|)
    decreases t, 1
  {
    hide Gen, Is, LabelsOk, FixedLen, Emit;
    var n := FixedLen(t.p);
    var g := Gen(t.p, false, tt, FULLSET);
    if 0 <= n <= MAX_BEHIND {
      AtSplit(code, pc, g, BehindCode(n));
      GenLabels(t.p, false, tt, FULLSET, code, pc);
      BehindCodeLabels(code, pc + |g|, n);
      LabelsJoin(code, pc, pc + |g|, pc + |g| + |BehindCode(n)|);
    } else {
      AndParts(code, pc, g);
      GenLabels(t.p, false, tt, FULLSET, code, pc + 2);
      PlainAndLabels(code, pc, g);
    }
  }

  lemma PlainAndLabels(code: seq<Instr>, pc: int, g: seq<Instr>)
    requires var c := pc + 2 + |g|;
             && 0 <= pc && c + 3 < |code| && LabelsOk(code, pc + 2, c)
             && Is(code, pc, IChoice(2 + |g| + 2)) && Is(code, c, IBackCommit(3)) && Is(code, c + 2, IFail)
    ensures LabelsOk(code, pc, pc + 2 + |g| + 3)
  {
    var c := pc + 2 + |g|;
    InstrLabelOk(code, pc, IChoice(2 + |g| + 2));
    InstrLabelOk(code, c, IBackCommit(3));
    InstrLabelOk(code, c + 2, IFail);
    hide LabelsOk;
    LabelsJoin(code, pc, pc + 2, c);
    LabelsJoin(code, pc, c, c + 2);
    LabelsJoin(code, pc, c + 2, c + 3);
  }

  lemma {:induction false} NotLabels(t: Tree, code: seq<Instr>, pc: int)
    requires t.TNot? && At(code, pc, GenNot(t)) && pc + |GenNot(t)| < |code|
    ensures LabelsOk(code, pc, pc + |GenNot(t)|)
    decreases t, 1
  {
    hide Gen, GetFirst, TestSize, CodeTestSet, Is, LabelsOk, Emit;
    var f := GetFirst(t.p, FULLSET);
    var k := TestSize(f.cs, f.empty);
    if HeadFail(t.p) {
      AtSplit(code, pc, CodeTestSet(f.cs, f.empty, k + 1), Emit(IFail));
      HeadNotLabels(code, pc, f);
    } else {
      var g := Gen(t.p, false, NoTest, FULLSET);
      NotParts(code, pc, CodeTestSet(f.cs, f.empty, k + 2 + |g| + 1), g);
      GenLabels(t.p, false, NoTest, FULLSET, code, pc + k + 2);
      PlainNotLabels(code, pc, f, g);
    }
  }

  lemma HeadNotLabels(code: seq<Instr>, pc: int, f: First)
    requires var k := TestSize(f.cs, f.empty);
             && 0 <= pc && pc + k + 1 < |code|
             && At(code, pc, CodeTestSet(f.cs, f.empty, k + 1)) && At(code, pc + k, Emit(IFail))
    ensures LabelsOk(code, pc, pc + TestSize(f.cs, f.empty) + 1)
  {
    hide TestSize, CodeTestSet;
    var k := TestSize(f.cs, f.empty);
    AtEmit(code, pc + k, IFail);
    TestLabelOk(code, pc, f.cs, f.empty, k + 1);
    InstrLabelOk(code, pc + k, IFail);
    LabelsJoin(code, pc, pc + k, pc + k + 1);
  }

  lemma PlainNotLabels(code: seq<Instr>, pc: int, f: First, g: seq<Instr>)
    requires var k := TestSize(f.cs, f.empty);
             && 0 <= pc && pc + k + 2 + |g| + 1 < |code|
             && At(code, pc, CodeTestSet(f.cs, f.empty, k + 2 + |g| + 1))
             && Is(code, pc + k, IChoice(2 + |g| + 1))
             && Is(code, pc + k + 2 + |g|, IFailTwice)
             && LabelsOk(code, pc + k + 2, pc + k + 2 + |g|)
    ensures LabelsOk(code, pc, pc + TestSize(f.cs, f.empty) + 2 + |g| + 1)
  {
    hide TestSize, CodeTestSet;
    var k := TestSize(f.cs, f.empty);
    var end := k + 2 + |g| + 1;
    TestLabelOk(code, pc, f.cs, f.empty, end);
    InstrLabelOk(code, pc + k, IChoice(2 + |g| + 1));
    InstrLabelOk(code, pc + k + 2 + |g|, IFailTwice);
    hide LabelsOk;
    LabelsJoin(code, pc, pc + k, pc + k + 2);
    LabelsJoin(code, pc, pc + k + 2, pc + k + 2 + |g|);
    LabelsJoin(code, pc, pc + k + 2 + |g|, pc + end);
  }

  lemma {:induction false} RepLabels(t: Tree, opt: bool, fl: Charset, code: seq<Instr>, pc: int)
    requires t.TRep? && At(code, pc, GenRep(t, opt, fl)) && pc + |GenRep(t, opt, fl)| < |code|
    ensures LabelsOk(code, pc, pc + |GenRep(t, opt, fl)|)
    decreases t, 1
  {
    hide Gen, GetFirst, TestSize, CodeTestSet, TestOf, LabelsOk, Emit;
    if ToCharset(t.p).Some? {
      SpanLabels(code, pc, ToCharset(t.p).value);
    } else if TestEndsLoop(t.p, fl) {
      LoopByTestLabels(t, opt, fl, code, pc);
    } else {
      LoopByChoiceLabels(t, opt, fl, code, pc);
    }
  }

  lemma {:induction false} LoopByTestLabels(t: Tree, opt: bool, fl: Charset, code: seq<Instr>, pc: int)
    requires t.TRep? && At(code, pc, GenRep(t, opt, fl)) && pc + |GenRep(t, opt, fl)| < |code|
    requires ToCharset(t.p).None? && TestEndsLoop(t.p, fl)
    ensures LabelsOk(code, pc, pc + |GenRep(t, opt, fl)|)
    decreases t, 0
  {
    hide Gen, GetFirst, TestSize, CodeTestSet, TestOf, Is, LabelsOk, Emit;
    var cs := GetFirst(t.p, FULLSET).cs;
    var k := TestSize(cs, false);
    var g := Gen(t.p, false, TestOf(cs, false), FULLSET);
    TestLoopParts(code, pc, CodeTestSet(cs, false, k + |g| + 2), g);
    GenLabels(t.p, false, TestOf(cs, false), FULLSET, code, pc + k);
    TestLoopLabels(code, pc, cs, g);
  }

  lemma {:induction false} LoopByChoiceLabels(t: Tree, opt: bool, fl: Charset, code: seq<Instr>, pc: int)
    requires t.TRep? && At(code, pc, GenRep(t, opt, fl)) && pc + |GenRep(t, opt, fl)| < |code|
    requires ToCharset(t.p).None? && !TestEndsLoop(t.p, fl)
    ensures LabelsOk(code, pc, pc + |GenRep(t, opt, fl)|)
    decreases t, 0
  {
    hide Gen, GetFirst, TestSize, CodeTestSet, TestOf, Is, LabelsOk, Emit;
    var f := GetFirst(t.p, FULLSET);
    var k := TestSize(f.cs, f.empty);
    var g := Gen(t.p, false, NoTest, FULLSET);
    ChoiceLoopParts(code, pc, CodeTestSet(f.cs, f.empty, k + 2 + |g| + 2), g, opt);
    GenLabels(t.p, false, NoTest, FULLSET, code, pc + k + 2);
    ChoiceLoopLabels(code, pc, f, g, opt);
  }

  lemma SpanLabels(code: seq<Instr>, pc: int, cs: Charset)
    requires At(code, pc, Emit(ISpan(cs)))
    ensures LabelsOk(code, pc, pc + CHARSET_INST_SIZE)
  {
    AtEmit(code, pc, ISpan(cs));
    InstrLabelOk(code, pc, ISpan(cs));
  }

  lemma TestLoopLabels(code: seq<Instr>, pc: int, cs: Charset, g: seq<Instr>)
    requires var k := TestSize(cs, false);
             && 0 <= pc && pc + k + |g| + 2 < |code|
             && At(code, pc, CodeTestSet(cs, false, k + |g| + 2))
             && Is(code, pc + k + |g|, IJmp(-(k + |g|)))
             && LabelsOk(code, pc + k, pc + k + |g|)
    ensures LabelsOk(code, pc, pc + TestSize(cs, false) + |g| + 2)
  {
    var k := TestSize(cs, false);
    TestLabelOk(code, pc, cs, false, k + |g| + 2);
    AtEmit(code, pc, TestInstr(cs, k + |g| + 2));
    InstrLabelOk(code, pc + k + |g|, IJmp(-(k + |g|)));
    hide LabelsOk;
    LabelsJoin(code, pc, pc + k, pc + k + |g|);
    LabelsJoin(code, pc, pc + k + |g|, pc + k + |g| + 2);
  }

  lemma ChoiceLoopLabels(code: seq<Instr>, pc: int, f: First, g: seq<Instr>, opt: bool)
    requires var k := TestSize(f.cs, f.empty);
             && 0 <= pc && pc + k + 2 + |g| + 2 < |code|
             && At(code, pc, CodeTestSet(f.cs, f.empty, k + 2 + |g| + 2))
             && Is(code, pc + k, LoopEntry(g, opt))
             && Is(code, pc + k + 2 + |g|, IPartialCommit(-|g|))
             && LabelsOk(code, pc + k + 2, pc + k + 2 + |g|)
    ensures LabelsOk(code, pc, pc + TestSize(f.cs, f.empty) + 2 + |g| + 2)
  {
    hide TestSize, CodeTestSet;
    var k := TestSize(f.cs, f.empty);
    TestLabelOk(code, pc, f.cs, f.empty, k + 2 + |g| + 2);
    InstrLabelOk(code, pc + k, LoopEntry(g, opt));
    InstrLabelOk(code, pc + k + 2 + |g|, IPartialCommit(-|g|));
    hide LabelsOk;
    LabelsJoin(code, pc, pc + k, pc + k + 2);
    LabelsJoin(code, pc, pc + k + 2, pc + k + 2 + |g|);
    LabelsJoin(code, pc, pc + k + 2 + |g|, pc + k + 2 + |g| + 2);
  }

  lemma {:induction false} ChoiceLabels(t: Tree, opt: bool, fl: Charset, code: seq<Instr>, pc: int)
    requires t.TChoice? && At(code, pc, GenChoice(t, opt, fl)) && pc + |GenChoice(t, opt, fl)| < |code|
    ensures LabelsOk(code, pc, pc + |GenChoice(t, opt, fl)|)
    decreases t, 1
  {
    hide Gen, GetFirst, TestSize, CodeTestSet, TestOf, LabelsOk, Emit;
    if TestDecides(t.p1, t.p2, fl) {
      DecidedLabels(t, opt, fl, code, pc);
    } else if opt && t.p2 == TTrue {
      var g1 := Gen(t.p1, true, NoTest, FULLSET);
      AtSplit(code, pc, Emit(IPartialCommit(2)), g1);
      GenLabels(t.p1, true, NoTest, FULLSET, code, pc + 2);
      PartialCommitLabels(code, pc);
      LabelsJoin(code, pc, pc + 2, pc + 2 + |g1|);
    } else {
      UndecidedLabels(t, opt, fl, code, pc);
    }
  }

  lemma PartialCommitLabels(code: seq<Instr>, pc: int)
    requires At(code, pc, Emit(IPartialCommit(2))) && pc + 2 < |code|
    ensures LabelsOk(code, pc, pc + 2)
  {
    AtEmit(code, pc, IPartialCommit(2));
    InstrLabelOk(code, pc, IPartialCommit(2));
  }

  lemma {:induction false} DecidedLabels(t: Tree, opt: bool, fl: Charset, code: seq<Instr>, pc: int)
    requires t.TChoice? && At(code, pc, GenChoice(t, opt, fl)) && pc + |GenChoice(t, opt, fl)| < |code|
    requires TestDecides(t.p1, t.p2, fl)
    ensures LabelsOk(code, pc, pc + |GenChoice(t, opt, fl)|)
    decreases t, 0
  {
    hide Gen, GetFirst, TestSize, CodeTestSet, TestOf, JumpOver, LabelsOk, Emit;
    var cs := GetFirst(t.p1, FULLSET).cs;
    var k := TestSize(cs, false);
    var g1, g2 := Gen(t.p1, false, TestOf(cs, false), fl), Gen(t.p2, opt, NoTest, fl);
    var l1 := k + |g1| + |JumpOver(g2, t.p2 == TTrue)|;
    TestChoiceParts(code, pc, CodeTestSet(cs, false, l1), g1, g2, t.p2 == TTrue);
    GenLabels(t.p1, false, TestOf(cs, false), fl, code, pc + k);
    GenLabels(t.p2, opt, NoTest, fl, code, pc + l1);
    TestChoiceLabels(code, pc, cs, g1, g2, t.p2 == TTrue);
  }

  lemma {:induction false} UndecidedLabels(t: Tree, opt: bool, fl: Charset, code: seq<Instr>, pc: int)
    requires t.TChoice? && At(code, pc, GenChoice(t, opt, fl)) && pc + |GenChoice(t, opt, fl)| < |code|
    requires !TestDecides(t.p1, t.p2, fl) && !(opt && t.p2 == TTrue)
    ensures LabelsOk(code, pc, pc + |GenChoice(t, opt, fl)|)
    decreases t, 0
  {
    hide Gen, GetFirst, TestSize, CodeTestSet, TestOf, LabelsOk, Is, Emit;
    var f1 := GetFirst(t.p1, FULLSET);
    var k := TestSize(f1.cs, f1.empty);
    var g1, g2 := Gen(t.p1, t.p2 == TTrue, TestOf(f1.cs, f1.empty), FULLSET), Gen(t.p2, opt, NoTest, fl);
    var l1 := k + 2 + |g1| + 2;
    PlainChoiceParts(code, pc, CodeTestSet(f1.cs, f1.empty, l1), g1, g2);
    GenLabels(t.p1, t.p2 == TTrue, TestOf(f1.cs, f1.empty), FULLSET, code, pc + k + 2);
    GenLabels(t.p2, opt, NoTest, fl, code, pc + l1);
    PlainChoiceLabels(code, pc, f1, g1, g2);
  }

  lemma TestChoiceLabels(code: seq<Instr>, pc: int, cs: Charset, g1: seq<Instr>, g2: seq<Instr>, skip: bool)
    requires var k := TestSize(cs, false);
             var j := |JumpOver(g2, skip)|;
             && 0 <= pc && pc + k + |g1| + j + |g2| < |code|
             && At(code, pc, CodeTestSet(cs, false, k + |g1| + j))
             && At(code, pc + k + |g1|, JumpOver(g2, skip))
             && LabelsOk(code, pc + k, pc + k + |g1|)
             && LabelsOk(code, pc + k + |g1| + j, pc + k + |g1| + j + |g2|)
    ensures LabelsOk(code, pc, pc + TestSize(cs, false) + |g1| + |JumpOver(g2, skip)| + |g2|)
  {
    var k := TestSize(cs, false);
    var j := |JumpOver(g2, skip)|;
    TestLabelOk(code, pc, cs, false, k + |g1| + j);
    if !skip {
      AtEmit(code, pc + k + |g1|, IJmp(2 + |g2|));
      InstrLabelOk(code, pc + k + |g1|, IJmp(2 + |g2|));
    }
    assert LabelsOk(code, pc + k + |g1|, pc + k + |g1| + j);
    hide LabelsOk;
    LabelsJoin(code, pc, pc + k, pc + k + |g1|);
    LabelsJoin(code, pc, pc + k + |g1|, pc + k + |g1| + j);
    LabelsJoin(code, pc, pc + k + |g1| + j, pc + k + |g1| + j + |g2|);
  }

  lemma PlainChoiceLabels(code: seq<Instr>, pc: int, f: First, g1: seq<Instr>, g2: seq<Instr>)
    requires var k := TestSize(f.cs, f.empty);
             && 0 <= pc && pc + k + 2 + |g1| + 2 + |g2| < |code|
             && At(code, pc, CodeTestSet(f.cs, f.empty, k + 2 + |g1| + 2))
             && Is(code, pc + k, IChoice(2 + |g1| + 2))
             && Is(code, pc + k + 2 + |g1|, ICommit(2 + |g2|))
             && LabelsOk(code, pc + k + 2, pc + k + 2 + |g1|)
             && LabelsOk(code, pc + k + 2 + |g1| + 2, pc + k + 2 + |g1| + 2 + |g2|)
    ensures LabelsOk(code, pc, pc + TestSize(f.cs, f.empty) + 2 + |g1| + 2 + |g2|)
  {
    hide TestSize, CodeTestSet;
    var k := TestSize(f.cs, f.empty);
    TestLabelOk(code, pc, f.cs, f.empty, k + 2 + |g1| + 2);
    InstrLabelOk(code, pc + k, IChoice(2 + |g1| + 2));
    InstrLabelOk(code, pc + k + 2 + |g1|, ICommit(2 + |g2|));
    hide LabelsOk;
    LabelsJoin(code, pc, pc + k, pc + k + 2);
    LabelsJoin(code, pc, pc + k + 2, pc + k + 2 + |g1|);
    LabelsJoin(code, pc, pc + k + 2 + |g1|, pc + k + 2 + |g1| + 2);
    LabelsJoin(code, pc, pc + k + 2 + |g1| + 2, pc + k + 2 + |g1| + 2 + |g2|);
  }

  // ---------------------------------------------------------------------------
  // Ranks
  // ---------------------------------------------------------------------------

  ghost function RankOf(code: seq<Instr>, q: int): nat
    requires 0 <= q < |code| && LabelOk(code, q)
  {
    if !code[q].IJmp? then 0
    else if code[q].off > 0 then 2 * (|code| - (q + code[q].off))
    else 2 * (|code| - q) - 1
  }

  /** Chains of jumps in code with good labels end. */
  lemma LabelsRanked(code: seq<Instr>) returns (rank: seq<nat>)
    requires LabelsOk(code, 0, |code|)
    ensures Ranked(code, rank) && JumpsPadded(code)
  {
    rank := seq(|code|, q requires 0 <= q < |code| => RankOf(code, q));
    forall q | 0 <= q < |code| && HasLabel(code[q])
      ensures 0 <= q + code[q].off < |code|
      ensures code[q].IJmp? ==> rank[q + code[q].off] < rank[q]
    {
      var d := q + code[q].off;
      assert LabelOk(code, q);
      assert LabelOk(code, d);
    }
    forall q | 0 <= q < |code| && code[q].IJmp?
      ensures q + 1 < |code| && code[q + 1] == Pad
    {
      assert LabelOk(code, q);
    }
  }

  lemma PatternRanked(t: Tree) returns (rank: seq<nat>)
    ensures Ranked(GenPattern(t), rank) && JumpsPadded(GenPattern(t))
  {
    hide Gen;
    var g := Gen(t, false, NoTest, FULLSET);
    var code := GenPattern(t);
    assert At(code, 0, g + Emit(IEnd));
    AtSplit(code, 0, g, Emit(IEnd));
    AtEmit(code, |g|, IEnd);
    GenLabels(t, false, NoTest, FULLSET, code, 0);
    InstrLabelOk(code, |g|, IEnd);
    LabelsJoin(code, 0, |g|, |code|);
    rank := LabelsRanked(code);
  }
}
